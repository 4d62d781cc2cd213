/** The dep and comp slots of a tuned launcher (`tuning_render`, intj/tuning.py; `_levels`,
    intj/render/context.py), and when every lowered heuristic reads only what C already has. */
module TuningSlots {
  import opened Optional
  import opened StableSort
  import opened Tuning
  import opened TunedValues

  function LevelOf(c: Computed): nat {
    c.level
  }

  /** `sorted(plan.computed, key=lambda c: c.level)`: a comp slot is a position here. */
  function Slots(plan: Plan): seq<Computed> {
    Sorted(plan.computed, LevelOf)
  }

  function DependentLevels(dependent: seq<Dependent>): map<string, nat> {
    if dependent == [] then map[]
    else
      var last := dependent[|dependent| - 1];
      DependentLevels(dependent[..|dependent| - 1])[last.name := last.level]
  }

  /** A computed heuristic reads a dependent of its own level or above. */
  predicate ReadsEarly(c: Computed, levels: map<string, nat>) {
    exists n :: n in c.inputs && n in levels && levels[n] >= c.level
  }

  /** The guard that reports a bug of intj's own. */
  predicate GuardFires(plan: Plan) {
    exists c :: c in plan.computed && ReadsEarly(c, DependentLevels(plan.dependent))
  }

  method LevelMap(dependent: seq<Dependent>) returns (levels: map<string, nat>)
    ensures levels == DependentLevels(dependent)
  {
    levels := map[];
    for i := 0 to |dependent|
      invariant levels == DependentLevels(dependent[..i])
    {
      assert dependent[..i + 1][..i] == dependent[..i];
      levels := levels[dependent[i].name := dependent[i].level];
    }
    assert dependent[..|dependent|] == dependent;
  }

  method ReadEarly(c: Computed, levels: map<string, nat>) returns (early: bool)
    ensures early == ReadsEarly(c, levels)
  {
    for k := 0 to |c.inputs|
      invariant forall m :: 0 <= m < k && c.inputs[m] in levels ==> levels[c.inputs[m]] < c.level
    {
      var n := c.inputs[k];
      if n in levels && levels[n] >= c.level {
        return true;
      }
    }
    return false;
  }

  method SlotsInOrder(plan: Plan) returns (slots: seq<Computed>)
    ensures Ascending(slots, LevelOf) && |slots| == |plan.computed|
    ensures forall l: nat :: Of(slots, l, LevelOf) == Of(plan.computed, l, LevelOf)
    ensures forall c :: c in slots <==> c in plan.computed
  {
    slots := Sorted(plan.computed, LevelOf);
    SortedStable(plan.computed, LevelOf, 0);
    forall l: nat
      ensures Of(slots, l, LevelOf) == Of(plan.computed, l, LevelOf)
    {
      SortedStable(plan.computed, LevelOf, l);
    }
  }

  /** The guard as it runs, over the slots in order. */
  method CheckReads(plan: Plan) returns (ok: bool)
    ensures ok <==> !GuardFires(plan)
  {
    var levels := LevelMap(plan.dependent);
    hide DependentLevels;
    hide ReadsEarly;
    var slots := SlotsInOrder(plan);
    for j := 0 to |slots|
      invariant forall i :: 0 <= i < j ==> !ReadsEarly(slots[i], levels)
    {
      var early := ReadEarly(slots[j], levels);
      if early {
        assert slots[j] in plan.computed;
        return false;
      }
    }
    forall c | c in plan.computed
      ensures !ReadsEarly(c, levels)
    {
      assert c in slots;
    }
    return true;
  }

  /** What the C of comp slot `j` reads of `n` is there: a dependent's record was walked before,
      a computed key has an earlier slot, and anything else is not tuned. */
  ghost predicate Ready(plan: Plan, j: nat, n: string)
    requires j < |Slots(plan)|
  {
    && (forall d :: d in plan.dependent && d.name == n ==> d.level < Slots(plan)[j].level)
    && forall i :: 0 <= i < |Slots(plan)| && Slots(plan)[i].name == n ==>
      i < j && Slots(plan)[i].level <= Slots(plan)[j].level
  }

  /** Every lowered heuristic's every read is ready. */
  ghost predicate AllReady(plan: Plan) {
    forall j, n :: 0 <= j < |Slots(plan)| && n in Slots(plan)[j].inputs ==> Ready(plan, j, n)
  }

  /** Heuristic `x` is in one layer with `n`, and before it. */
  ghost predicate Forward(layers: seq<Layer>, x: string, n: string) {
    exists k, i, j :: 0 <= k < |layers| && layers[k].Heuristics? && 0 <= i < j < |layers[k].values|
                   && layers[k].values[i].name == x && layers[k].values[j].name == n
  }

  /** No heuristic reads a name its own layer assigns later; `analyze` checks inner layers only. */
  ghost predicate NoForwardReads(layers: seq<Layer>) {
    forall k, i :: 0 <= k < |layers| && layers[k].Heuristics? && 0 <= i < |layers[k].values| ==>
      forall n :: n in InputsOf(layers[k].values[i]) ==> !Forward(layers, layers[k].values[i].name, n)
  }

  /** Where `n` is tuned, it has a lower level than the computed key. */
  ghost predicate LowerThan(plan: Plan, c: Computed, n: string) {
    && (forall d :: d in plan.dependent && d.name == n ==> d.level < c.level)
    && forall d :: d in plan.computed && d.name == n ==> d.level < c.level
  }

  /** Where a computed heuristic does read ahead in its layer, what it reads got a lower level. */
  ghost predicate ForwardReadsLower(plan: Plan, layers: seq<Layer>) {
    forall c, n :: c in plan.computed && n in c.inputs && Forward(layers, c.name, n) ==> LowerThan(plan, c, n)
  }

  /** Computed heuristic `c` reads dependent `d` ahead in its layer, and `d` got no lower level. */
  ghost predicate ReadsAheadOf(plan: Plan, layers: seq<Layer>, c: Computed, d: Dependent) {
    c in plan.computed && d in plan.dependent && d.name in c.inputs && Forward(layers, c.name, d.name)
      && d.level >= c.level
  }

  // ---------------------------------------------------------------- what the analysis keeps

  ghost predicate IsDependent(r: Roles, n: string) {
    exists d :: d in r.dependent && d.name == n
  }

  ghost predicate ComputedBefore(computed: seq<Computed>, j: nat, n: string) {
    exists i :: 0 <= i < j && i < |computed| && computed[i].name == n
  }

  /** A read that is not forward is of a name no layer will assign (`future`), or of one already
      known when the heuristic's key is looked up. */
  ghost predicate ReadsKnown(r: Roles, future: set<string>, layers: seq<Layer>) {
    forall j, n {:trigger Forward(layers, r.computed[j].name, n)} ::
      0 <= j < |r.computed| && n in r.computed[j].inputs && !Forward(layers, r.computed[j].name, n) ==>
        n !in future && KnownBy(r, r.computed, j, n, r.computed[j].level)
  }

  /** A name assigned so far is known by `level`, to the computed heuristic at `j`. */
  ghost predicate KnownBy(r: Roles, computed: seq<Computed>, j: nat, n: string, level: nat) {
    n in r.given ==> n in r.info && r.info[n].known <= level && (IsDependent(r, n) || ComputedBefore(computed, j, n))
  }

  /** No two roles share a name, and no level exceeds the highest computed one. */
  ghost predicate Tidy(r: Roles) {
    && (forall i, j :: 0 <= i < j < |r.computed| ==> r.computed[i].name != r.computed[j].name)
    && (forall d, c :: d in r.dependent && c in r.computed ==> d.name != c.name)
    && (forall i, j :: 0 <= i < j < |r.dependent| ==> r.dependent[i].name != r.dependent[j].name)
    && (forall n :: n in r.info ==> r.info[n].level <= TopLevel(r.computed))
    && forall c :: c in r.computed ==> c.level <= TopLevel(r.computed)
  }

  lemma KeyTidy(r: Roles, params: map<string, bool>, inner: set<string>, key: string, level: nat)
    requires Regular(r, params) && Tidy(r) && AfterKey(r, params, inner, key, level).Some?
    ensures var (r', level') := AfterKey(r, params, inner, key, level).value;
      && Tidy(r') && r'.computed == r.computed && r'.dependent == r.dependent
      && (level <= TopLevel(r.computed) ==> level' <= TopLevel(r.computed))
  {
  }

  lemma {:induction false} KeysTidy(r: Roles, params: map<string, bool>, inner: set<string>, keys: seq<string>)
    requires Regular(r, params) && Tidy(r) && AfterKeys(r, params, inner, keys).Some?
    ensures var (r', level) := AfterKeys(r, params, inner, keys).value;
      Tidy(r') && r'.computed == r.computed && r'.dependent == r.dependent && level <= TopLevel(r.computed)
    decreases |keys|
  {
    if keys != [] {
      var last := |keys| - 1;
      KeysTidy(r, params, inner, keys[..last]);
      KeysKeep(r, params, inner, keys[..last]);
      var (r1, level) := AfterKeys(r, params, inner, keys[..last]).value;
      KeyTidy(r1, params, inner, keys[last], level);
    }
  }

  lemma TunedTidy(r: Roles, params: map<string, bool>, name: string, level: nat)
    requires Regular(r, params) && Tidy(r) && AfterTuned(r, params, name, level).Some? && level <= TopLevel(r.computed)
    ensures Tidy(AfterTuned(r, params, name, level).value)
  {
  }

  lemma {:induction false} NamesTidy(r: Roles, params: map<string, bool>, names: seq<string>, level: nat)
    requires Regular(r, params) && Tidy(r) && AfterNames(r, params, names, level).Some? && level <= TopLevel(r.computed)
    ensures Tidy(AfterNames(r, params, names, level).value)
    decreases |names|
  {
    if names != [] {
      var last := |names| - 1;
      NamesTidy(r, params, names[..last], level);
      NamesKeep(r, params, names[..last], level);
      NamesInfo(r, params, names[..last], level);
      TunedTidy(AfterNames(r, params, names[..last], level).value, params, names[last], level);
    }
  }

  lemma {:induction false} MaxLevelTop(info: map<string, Info>, inputs: seq<string>, top: nat)
    requires forall n :: n in info ==> info[n].level <= top
    ensures MaxLevel(info, inputs) <= top
    decreases |inputs|
  {
    if inputs != [] {
      MaxLevelTop(info, inputs[..|inputs| - 1], top);
    }
  }

  lemma DependentTidy(r: Roles, r': Roles, name: string, level: nat)
    requires Tidy(r) && level <= TopLevel(r.computed)
    requires forall d :: d in r.dependent ==> d.name != name
    requires forall c :: c in r.computed ==> c.name != name
    requires r'.info == r.info[name := Info(true, level, level + 1)]
    requires r'.dependent == r.dependent + [Dependent(name, level)] && r'.computed == r.computed
    ensures Tidy(r')
  {
  }

  lemma ComputedTidy(r: Roles, r': Roles, c: Computed)
    requires Tidy(r)
    requires forall d :: d in r.dependent ==> d.name != c.name
    requires forall d :: d in r.computed ==> d.name != c.name
    requires r'.info == r.info[c.name := Info(true, c.level, c.level)]
    requires r'.dependent == r.dependent && r'.computed == r.computed + [c]
    ensures Tidy(r')
  {
    assert r'.computed[..|r.computed|] == r.computed;
    assert TopLevel(r'.computed) == Max(TopLevel(r.computed), c.level);
    hide TopLevel;
  }

  lemma HeuristicTidy(r: Roles, params: map<string, bool>, inner: set<string>, h: Heuristic)
    requires Regular(r, params) && Tidy(r) && AfterHeuristic(r, params, inner, h).Some?
    ensures Tidy(AfterHeuristic(r, params, inner, h).value)
  {
    var r' := AfterHeuristic(r, params, inner, h).value;
    var inputs := h.inputs.value;
    assert forall d :: d in r.dependent ==> d.name in r.given;
    assert forall c :: c in r.computed ==> c.name in r.given;
    hide Regular;
    if AllExact(r.info, inputs) {
      MaxLevelTop(r.info, inputs, TopLevel(r.computed));
      hide Tidy;
      DependentTidy(r, r', h.name, MaxLevel(r.info, inputs));
    } else {
      hide Tidy;
      ComputedTidy(r, r', Computed(h.name, MaxKnown(r.info, inputs), inputs));
    }
  }

  lemma {:induction false} HeuristicsTidy(r: Roles, params: map<string, bool>, inner: set<string>,
                                          values: seq<Heuristic>)
    requires Regular(r, params) && Tidy(r) && AfterHeuristics(r, params, inner, values).Some?
    ensures Tidy(AfterHeuristics(r, params, inner, values).value)
    decreases |values|
  {
    if values != [] {
      var last := |values| - 1;
      HeuristicsTidy(r, params, inner, values[..last]);
      HeuristicsKeep(r, params, inner, values[..last]);
      HeuristicTidy(AfterHeuristics(r, params, inner, values[..last]).value, params, inner, values[last]);
    }
  }

  lemma LayerTidy(r: Roles, params: map<string, bool>, inner: set<string>, layer: Layer)
    requires Regular(r, params) && Tidy(r) && AfterLayer(r, params, inner, layer).Some?
    ensures Tidy(AfterLayer(r, params, inner, layer).value)
  {
    match layer
    case Autotuner(keys, configs) =>
      KeysTidy(r, params, inner, keys);
      KeysKeep(r, params, inner, keys);
      var keyed := AfterKeys(r, params, inner, keys).value;
      NamesTidy(keyed.0, params, Distinct(AllNames(configs)), keyed.1);
    case Heuristics(values) => HeuristicsTidy(r, params, inner, values);
  }

  lemma {:induction false} LayersTidy(params: map<string, bool>, baked: set<string>, layers: seq<Layer>, k: nat)
    requires k <= |layers| && AfterLayers(params, baked, layers, k).Some?
    ensures Tidy(AfterLayers(params, baked, layers, k).value)
    decreases k
  {
    if k > 0 {
      LayersTidy(params, baked, layers, k - 1);
      LayersKeep(params, baked, layers, k - 1);
      LayerTidy(AfterLayers(params, baked, layers, k - 1).value, params, AssignedFrom(layers, k), layers[k - 1]);
    }
  }

  // ---------------------------------------------------------------- reads that are not forward

  /** Assigning other names leaves what was known known. */
  lemma KnownStays(r: Roles, r': Roles, future: set<string>, future': set<string>, layers: seq<Layer>)
    requires ReadsKnown(r, future, layers) && future' <= future && r'.computed == r.computed
    requires r.given <= r'.given <= r.given + future && Grows(r, r')
    requires forall n :: n in r.given ==> n in r.info
    ensures ReadsKnown(r', future', layers)
  {
    forall j, n | 0 <= j < |r.computed| && n in r.computed[j].inputs && !Forward(layers, r.computed[j].name, n)
      ensures n !in future' && KnownBy(r', r'.computed, j, n, r'.computed[j].level)
    {
      assert n !in future && KnownBy(r, r.computed, j, n, r.computed[j].level);
      if n in r'.given && IsDependent(r, n) {
        var d :| d in r.dependent && d.name == n;
        assert d in r'.dependent;
      }
    }
  }

  /** A heuristic whose reads no later layer or heuristic assigns. */
  lemma HeuristicKnown(r: Roles, params: map<string, bool>, inner: set<string>, h: Heuristic, future: set<string>,
                       future': set<string>, layers: seq<Layer>)
    requires Regular(r, params) && ReadsKnown(r, future, layers) && AfterHeuristic(r, params, inner, h).Some?
    requires h.name in future && future' <= future
    requires forall n :: n in h.inputs.value && !Forward(layers, h.name, n) ==> n !in future'
    ensures ReadsKnown(AfterHeuristic(r, params, inner, h).value, future', layers)
  {
    var r' := AfterHeuristic(r, params, inner, h).value;
    HeuristicKeeps(r, params, inner, h);
    if r'.computed == r.computed {
      KnownStays(r, r', future, future', layers);
    } else {
      var c := Computed(h.name, MaxKnown(r.info, h.inputs.value), h.inputs.value);
      var r1 := r'.(computed := r.computed);
      assert Grows(r, r1);
      KnownStays(r, r1, future, future', layers);
      forall n | n in c.inputs && !Forward(layers, c.name, n)
        ensures n !in future' && KnownBy(r', r'.computed, |r.computed|, n, c.level)
      {
        if n in r'.given {
          InputLevel(r.info, c.inputs, n);
          GivenHasRole(r, params, n);
          RoleStays(r, c, n);
        }
      }
      AddKnown(r1, c, future', layers);
    }
  }

  lemma RoleStays(r: Roles, c: Computed, n: string)
    requires IsDependent(r, n) || exists d :: d in r.computed && d.name == n
    ensures IsDependent(r, n) || ComputedBefore(r.computed + [c], |r.computed|, n)
  {
    if !IsDependent(r, n) {
      var d :| d in r.computed && d.name == n;
      var i :| 0 <= i < |r.computed| && r.computed[i] == d;
      assert (r.computed + [c])[i].name == n;
    }
  }

  lemma AddKnown(r: Roles, c: Computed, future: set<string>, layers: seq<Layer>)
    requires ReadsKnown(r, future, layers)
    requires forall n :: n in c.inputs && !Forward(layers, c.name, n) ==>
               n !in future && KnownBy(r, r.computed + [c], |r.computed|, n, c.level)
    ensures ReadsKnown(r.(computed := r.computed + [c]), future, layers)
  {
    var r' := r.(computed := r.computed + [c]);
    forall j, n | 0 <= j < |r'.computed| && n in r'.computed[j].inputs && !Forward(layers, r'.computed[j].name, n)
      ensures n !in future && KnownBy(r', r'.computed, j, n, r'.computed[j].level)
    {
      if j < |r.computed| {
        assert r'.computed[j] == r.computed[j];
        if ComputedBefore(r.computed, j, n) {
          var i :| 0 <= i < j && r.computed[i].name == n;
          assert r'.computed[i].name == n;
        }
      }
      assert IsDependent(r, n) ==> IsDependent(r', n);
    }
  }

  lemma {:induction false} HeuristicsKnown(params: map<string, bool>, inner: set<string>, r: Roles, layers: seq<Layer>,
                                           k: nat, values: seq<Heuristic>, i: nat)
    requires k < |layers| && layers[k] == Heuristics(values) && i <= |values|
    requires Regular(r, params) && AfterHeuristics(r, params, inner, values[..i]).Some?
    requires ReadsKnown(r, inner + HeuristicNames(values), layers)
    ensures ReadsKnown(AfterHeuristics(r, params, inner, values[..i]).value, inner + HeuristicNames(values[i..]),
                       layers)
    decreases i
  {
    if i == 0 {
      assert values[0..] == values;
    } else {
      assert values[..i][..i - 1] == values[..i - 1];
      HeuristicsKnown(params, inner, r, layers, k, values, i - 1);
      HeuristicsKeep(r, params, inner, values[..i - 1]);
      hide ReadsKnown;
      hide Regular;
      OneKnown(params, inner, AfterHeuristics(r, params, inner, values[..i - 1]).value, layers, k, values, i - 1);
    }
  }

  lemma IsForward(layers: seq<Layer>, k: nat, values: seq<Heuristic>, i: nat, n: string)
    requires k < |layers| && layers[k] == Heuristics(values) && i < |values| && n in HeuristicNames(values[i + 1..])
    ensures Forward(layers, values[i].name, n)
  {
    var m :| 0 <= m < |values[i + 1..]| && values[i + 1..][m].name == n;
    assert layers[k].values[i + 1 + m].name == n && layers[k].values[i].name == values[i].name;
  }

  lemma OneKnown(params: map<string, bool>, inner: set<string>, r: Roles, layers: seq<Layer>, k: nat,
                 values: seq<Heuristic>, i: nat)
    requires k < |layers| && layers[k] == Heuristics(values) && i < |values|
    requires Regular(r, params) && AfterHeuristic(r, params, inner, values[i]).Some?
    requires ReadsKnown(r, inner + HeuristicNames(values[i..]), layers)
    ensures ReadsKnown(AfterHeuristic(r, params, inner, values[i]).value, inner + HeuristicNames(values[i + 1..]),
                       layers)
  {
    hide ReadsKnown;
    hide Regular;
    NamesHead(values[i..]);
    assert values[i..][1..] == values[i + 1..];
    forall n | n in HeuristicNames(values[i + 1..])
      ensures Forward(layers, values[i].name, n)
    {
      IsForward(layers, k, values, i, n);
    }
    hide Forward;
    HeuristicKnown(r, params, inner, values[i], inner + HeuristicNames(values[i..]),
                   inner + HeuristicNames(values[i + 1..]), layers);
  }

  lemma NamesHead(values: seq<Heuristic>)
    requires values != []
    ensures HeuristicNames(values[1..]) <= HeuristicNames(values) && values[0].name in HeuristicNames(values)
  {
    forall n | n in HeuristicNames(values[1..])
      ensures n in HeuristicNames(values)
    {
      var i :| 0 <= i < |values[1..]| && values[1..][i].name == n;
      assert values[i + 1].name == n;
    }
  }

  lemma {:induction false} LayersKnown(params: map<string, bool>, baked: set<string>, layers: seq<Layer>, k: nat)
    requires k <= |layers| && AfterLayers(params, baked, layers, k).Some?
    ensures ReadsKnown(AfterLayers(params, baked, layers, k).value, AssignedFrom(layers, k), layers)
    decreases k
  {
    if k > 0 {
      LayersKnown(params, baked, layers, k - 1);
      LayersKeep(params, baked, layers, k - 1);
      var r := AfterLayers(params, baked, layers, k - 1).value;
      var layer := layers[k - 1];
      assert AssignedFrom(layers, k - 1) == AssignedFrom(layers, k) + Assigns(layer);
      hide ReadsKnown;
      match layer
      case Autotuner(keys, configs) =>
        var r' := AfterLayer(r, params, AssignedFrom(layers, k), layer).value;
        LayerKeeps(r, params, AssignedFrom(layers, k), layer);
        KeysComputeNothing(r, params, AssignedFrom(layers, k), keys);
        var keyed := AfterKeys(r, params, AssignedFrom(layers, k), keys).value;
        NamesInfo(keyed.0, params, Distinct(AllNames(configs)), keyed.1);
        KnownStays(r, r', AssignedFrom(layers, k - 1), AssignedFrom(layers, k), layers);
      case Heuristics(values) =>
        assert values[..|values|] == values;
        HeuristicsKnown(params, AssignedFrom(layers, k), r, layers, k - 1, values, |values|);
        assert HeuristicNames(values[|values|..]) == {};
        assert AssignedFrom(layers, k) + {} == AssignedFrom(layers, k);
    }
  }

  lemma {:induction false} KeysComputeNothing(r: Roles, params: map<string, bool>, inner: set<string>,
                                              keys: seq<string>)
    requires AfterKeys(r, params, inner, keys).Some?
    ensures AfterKeys(r, params, inner, keys).value.0.computed == r.computed
    decreases |keys|
  {
    if keys != [] {
      KeysComputeNothing(r, params, inner, keys[..|keys| - 1]);
    }
  }

  // ---------------------------------------------------------------- forward reads come later

  lemma {:induction false} HeuristicsGrow(r: Roles, params: map<string, bool>, inner: set<string>,
                                          values: seq<Heuristic>, i: nat, n: nat)
    requires i <= n <= |values| && Regular(r, params) && AfterHeuristics(r, params, inner, values[..n]).Some?
    ensures AfterHeuristics(r, params, inner, values[..i]).Some?
    ensures Grows(AfterHeuristics(r, params, inner, values[..i]).value,
                  AfterHeuristics(r, params, inner, values[..n]).value)
    ensures Regular(AfterHeuristics(r, params, inner, values[..i]).value, params)
    decreases n
  {
    HeuristicsKeep(r, params, inner, values[..n]);
    if i < n {
      assert values[..n][..n - 1] == values[..n - 1];
      HeuristicsGrow(r, params, inner, values, i, n - 1);
      HeuristicsKeep(r, params, inner, values[..n - 1]);
      HeuristicKeeps(AfterHeuristics(r, params, inner, values[..n - 1]).value, params, inner, values[n - 1]);
    }
  }

  lemma AssignsOnce(r: Roles, params: map<string, bool>, inner: set<string>, values: seq<Heuristic>, i: nat)
    requires i < |values| && AfterHeuristics(r, params, inner, values[..i + 1]).Some?
    ensures AfterHeuristics(r, params, inner, values[..i]).Some?
    ensures values[i].name !in AfterHeuristics(r, params, inner, values[..i]).value.given
    ensures values[i].name in AfterHeuristics(r, params, inner, values[..i + 1]).value.given
  {
    assert values[..i + 1][..i] == values[..i];
  }

  /** Right after heuristic `i`, its own name is assigned and no later one's is. */
  lemma JustAssigned(r: Roles, params: map<string, bool>, inner: set<string>, values: seq<Heuristic>, i: nat, j: nat)
    requires i < j < |values| && Regular(r, params) && AfterHeuristics(r, params, inner, values).Some?
    ensures AfterHeuristics(r, params, inner, values[..i + 1]).Some?
    ensures var r1 := AfterHeuristics(r, params, inner, values[..i + 1]).value;
            values[i].name in r1.given && values[j].name !in r1.given
  {
    hide AfterHeuristics;
    hide Regular;
    assert values[..|values|] == values;
    HeuristicsGrow(r, params, inner, values, j + 1, |values|);
    HeuristicsGrow(r, params, inner, values, i + 1, |values|);
    AssignsOnce(r, params, inner, values, i);
    AssignsOnce(r, params, inner, values, j);
    HeuristicsGrow(r, params, inner, values, i + 1, j);
  }

  /** Of two computed keys, the one whose heuristic comes later in their layer has the later place. */
  lemma ForwardLater(params: map<string, bool>, baked: set<string>, layers: seq<Layer>, last: Roles, p: nat, q: nat)
    requires AfterLayers(params, baked, layers, |layers|) == Some(last)
    requires p < |last.computed| && q < |last.computed| && Forward(layers, last.computed[p].name, last.computed[q].name)
    ensures p < q
  {
    hide AfterLayers;
    hide Tidy;
    hide Grows;
    var x, n := last.computed[p].name, last.computed[q].name;
    var k, i, j :| 0 <= k < |layers| && layers[k].Heuristics? && 0 <= i < j < |layers[k].values|
                && layers[k].values[i].name == x && layers[k].values[j].name == n;
    LayersGrow(params, baked, layers, k, |layers|);
    LayersGrow(params, baked, layers, k + 1, |layers|);
    LayersTidy(params, baked, layers, |layers|);
    LaterInLayer(params, baked, layers, k, layers[k].values, last, i, j, p, q);
  }

  lemma LaterInLayer(params: map<string, bool>, baked: set<string>, layers: seq<Layer>, k: nat, values: seq<Heuristic>,
                     last: Roles, i: nat, j: nat, p: nat, q: nat)
    requires k < |layers| && layers[k] == Heuristics(values) && i < j < |values| && Tidy(last)
    requires AfterLayers(params, baked, layers, k).Some? && AfterLayers(params, baked, layers, k + 1).Some?
    requires Grows(AfterLayers(params, baked, layers, k + 1).value, last)
    requires p < |last.computed| && last.computed[p].name == values[i].name
    requires q < |last.computed| && last.computed[q].name == values[j].name
    ensures p < q
  {
    LayersKeep(params, baked, layers, k);
    var r, inner := AfterLayers(params, baked, layers, k).value, AssignedFrom(layers, k + 1);
    assert AfterHeuristics(r, params, inner, values) == AfterLayers(params, baked, layers, k + 1);
    hide AfterLayers;
    hide Tidy;
    JustAssigned(r, params, inner, values, i, j);
    assert values[..|values|] == values;
    HeuristicsGrow(r, params, inner, values, i + 1, |values|);
    hide AfterHeuristics;
    hide Regular;
    PlacesApart(AfterHeuristics(r, params, inner, values[..i + 1]).value, last, params, p, q);
  }

  lemma PlacesApart(r: Roles, last: Roles, params: map<string, bool>, p: nat, q: nat)
    requires Regular(r, params) && r.computed <= last.computed && r.dependent <= last.dependent && Tidy(last)
    requires p < |last.computed| && q < |last.computed|
    requires last.computed[p].name in r.given && last.computed[q].name !in r.given
    ensures p < q
  {
    GivenHasRole(r, params, last.computed[p].name);
    assert forall d :: d in r.dependent ==> d in last.dependent;
    assert last.computed[p] in last.computed;
    var c :| c in r.computed && c.name == last.computed[p].name;
    var m :| 0 <= m < |r.computed| && r.computed[m] == c;
    assert last.computed[m] == c;
    assert forall m :: 0 <= m < |r.computed| ==> last.computed[m] == r.computed[m] && r.computed[m] in r.computed;
  }

  // ---------------------------------------------------------------- availability

  lemma SlotPlace(plan: Plan, j: nat) returns (p: nat)
    requires j < |Slots(plan)|
    ensures p < |plan.computed| && plan.computed[p] == Slots(plan)[j]
  {
    SortedStable(plan.computed, LevelOf, 0);
    assert Slots(plan)[j] in plan.computed;
    p :| 0 <= p < |plan.computed| && plan.computed[p] == Slots(plan)[j];
  }

  lemma PlacesOrderSlots(plan: Plan, p: nat, q: nat, i: nat, j: nat)
    requires p < q < |plan.computed| && i < |Slots(plan)| && j < |Slots(plan)|
    requires forall a, b :: 0 <= a < b < |plan.computed| ==> plan.computed[a].name != plan.computed[b].name
    requires Slots(plan)[i] == plan.computed[p] && Slots(plan)[j] == plan.computed[q]
        && plan.computed[p].level <= plan.computed[q].level
    ensures i < j
  {
    SortedStable(plan.computed, LevelOf, 0);
    if plan.computed[p].level == plan.computed[q].level {
      assert forall a, b :: 0 <= a < b < |plan.computed| ==> plan.computed[a] != plan.computed[b] by {
        forall a, b | 0 <= a < b < |plan.computed|
          ensures plan.computed[a] != plan.computed[b]
        {
          assert plan.computed[a].name != plan.computed[b].name;
        }
      }
      SortedKeepsOrder(plan.computed, LevelOf, p, q, i, j);
    } else {
      assert j <= i ==> LevelOf(Slots(plan)[j]) <= LevelOf(Slots(plan)[i]);
    }
  }

  /** A computed key known to an earlier heuristic has an earlier slot. */
  lemma KnownSlot(plan: Plan, r: Roles, params: map<string, bool>, p: nat, q: nat, i: nat, j: nat)
    requires Regular(r, params) && Tidy(r) && plan.computed == r.computed
    requires p < |plan.computed| && q < |plan.computed|
        && KnownBy(r, r.computed, p, plan.computed[q].name, r.computed[p].level)
    requires i < |Slots(plan)| && j < |Slots(plan)| && Slots(plan)[i] == plan.computed[q]
        && Slots(plan)[j] == plan.computed[p]
    ensures i < j && Slots(plan)[i].level <= Slots(plan)[j].level
  {
    var n := plan.computed[q].name;
    assert plan.computed[q] in r.computed;
    assert !IsDependent(r, n) && n in r.given && r.info[n].known == plan.computed[q].level;
    hide Regular;
    var m :| 0 <= m < p && r.computed[m].name == n;
    assert m == q;
    hide Slots;
    PlacesOrderSlots(plan, q, p, i, j);
  }

  /** A read that is not forward is ready. */
  lemma KnownReady(plan: Plan, r: Roles, params: map<string, bool>, j: nat, p: nat, n: string)
    requires Regular(r, params) && Tidy(r) && plan.computed == r.computed && plan.dependent == r.dependent
    requires j < |Slots(plan)| && p < |plan.computed| && plan.computed[p] == Slots(plan)[j]
    requires KnownBy(r, r.computed, p, n, r.computed[p].level)
    ensures Ready(plan, j, n)
  {
    hide Slots;
    assert forall d :: d in plan.dependent && d.name == n ==> d.level < plan.computed[p].level;
    hide Regular;
    hide Tidy;
    hide KnownBy;
    forall i | 0 <= i < |Slots(plan)| && Slots(plan)[i].name == n
      ensures i < j && Slots(plan)[i].level <= Slots(plan)[j].level
    {
      var q := SlotPlace(plan, i);
      KnownSlot(plan, r, params, p, q, i, j);
    }
  }

  lemma SlotsAscend(plan: Plan, i: nat, j: nat)
    requires i < |Slots(plan)| && j < |Slots(plan)| && i <= j
    ensures Slots(plan)[i].level <= Slots(plan)[j].level
  {
    SortedStable(plan.computed, LevelOf, 0);
    assert i < j ==> LevelOf(Slots(plan)[i]) <= LevelOf(Slots(plan)[j]);
  }

  /** A forward-read computed key has an earlier slot exactly when it has a lower level. */
  lemma ForwardSlot(plan: Plan, params: map<string, bool>, baked: set<string>, layers: seq<Layer>, r: Roles, p: nat,
                    q: nat, i: nat, j: nat)
    requires AfterLayers(params, baked, layers, |layers|) == Some(r) && Tidy(r) && plan.computed == r.computed
    requires p < |plan.computed| && q < |plan.computed| && Forward(layers, plan.computed[p].name, plan.computed[q].name)
    requires i < |Slots(plan)| && j < |Slots(plan)| && Slots(plan)[i] == plan.computed[q]
        && Slots(plan)[j] == plan.computed[p]
    ensures i < j && Slots(plan)[i].level <= Slots(plan)[j].level <==> Slots(plan)[i].level < Slots(plan)[j].level
  {
    hide AfterLayers;
    hide Slots;
    ForwardLater(params, baked, layers, r, p, q);
    hide Forward;
    if j <= i {
      SlotsAscend(plan, j, i);
    }
    if plan.computed[q].level == plan.computed[p].level {
      PlacesOrderSlots(plan, p, q, j, i);
    }
  }

  lemma SlotsHold(plan: Plan)
    ensures forall c :: c in plan.computed <==> c in Slots(plan)
  {
    SortedStable(plan.computed, LevelOf, 0);
  }

  /** A forward read is ready exactly when what it reads got a lower level. */
  lemma ForwardReady(plan: Plan, params: map<string, bool>, baked: set<string>, layers: seq<Layer>, r: Roles, j: nat,
                     p: nat, n: string)
    requires AfterLayers(params, baked, layers, |layers|) == Some(r) && Tidy(r) && plan.computed == r.computed
    requires j < |Slots(plan)| && p < |plan.computed| && plan.computed[p] == Slots(plan)[j]
        && Forward(layers, plan.computed[p].name, n)
    ensures Ready(plan, j, n) <==> LowerThan(plan, plan.computed[p], n)
  {
    hide AfterLayers;
    hide Tidy;
    hide Slots;
    SlotsHold(plan);
    forall i | 0 <= i < |Slots(plan)| && Slots(plan)[i].name == n
      ensures i < j && Slots(plan)[i].level <= Slots(plan)[j].level <==> Slots(plan)[i].level < Slots(plan)[j].level
    {
      var q := SlotPlace(plan, i);
      ForwardSlot(plan, params, baked, layers, r, p, q, i, j);
    }
    hide Forward;
    SlotsQuantify(plan, n, plan.computed[p].level);
  }

  /** The slots named `n` are the computed keys named `n`. */
  lemma SlotsQuantify(plan: Plan, n: string, top: nat)
    ensures (forall d :: d in plan.computed && d.name == n ==> d.level < top)
       <==> (forall i :: 0 <= i < |Slots(plan)| && Slots(plan)[i].name == n ==> Slots(plan)[i].level < top)
  {
    hide Slots;
    SlotsHold(plan);
    forall i | 0 <= i < |Slots(plan)|
      ensures Slots(plan)[i] in plan.computed
    {
      assert Slots(plan)[i] in Slots(plan);
    }
  }

  lemma ReadyAt(plan: Plan, params: map<string, bool>, baked: set<string>, layers: seq<Layer>, r: Roles, j: nat,
                n: string)
    requires AfterLayers(params, baked, layers, |layers|) == Some(r) && plan.computed == r.computed
        && plan.dependent == r.dependent
    requires j < |Slots(plan)| && n in Slots(plan)[j].inputs
    ensures Ready(plan, j, n) <==> (Forward(layers, Slots(plan)[j].name, n) ==> LowerThan(plan, Slots(plan)[j], n))
  {
    hide AfterLayers;
    hide Tidy;
    hide Regular;
    hide Ready;
    hide Slots;
    hide LowerThan;
    LayersKnown(params, baked, layers, |layers|);
    LayersKeep(params, baked, layers, |layers|);
    LayersTidy(params, baked, layers, |layers|);
    var p := SlotPlace(plan, j);
    if Forward(layers, plan.computed[p].name, n) {
      ForwardReady(plan, params, baked, layers, r, j, p, n);
    } else {
      assert !Forward(layers, r.computed[p].name, n);
      KnownReady(plan, r, params, j, p, n);
    }
  }

  /** Every read of every lowered heuristic is ready exactly when no heuristic reads, from further
      on in its own layer, a tuned name of its own level or above. */
  lemma ReadyExactly(params: map<string, bool>, baked: set<string>, layers: seq<Layer>)
    requires Analysis(params, baked, layers).Some?
    ensures var plan := Analysis(params, baked, layers).value; AllReady(plan) <==> ForwardReadsLower(plan, layers)
  {
    var plan := Analysis(params, baked, layers).value;
    var r := AfterLayers(params, baked, layers, |layers|).value;
    hide AfterLayers;
    hide Ready;
    hide Slots;
    hide Forward;
    hide LowerThan;
    forall j, n | 0 <= j < |Slots(plan)| && n in Slots(plan)[j].inputs
      ensures Ready(plan, j, n) <==> (Forward(layers, Slots(plan)[j].name, n) ==> LowerThan(plan, Slots(plan)[j], n))
    {
      ReadyAt(plan, params, baked, layers, r, j, n);
    }
    hide Analysis;
    SlotsHold(plan);
    forall j | 0 <= j < |Slots(plan)|
      ensures Slots(plan)[j] in plan.computed
    {
      assert Slots(plan)[j] in Slots(plan);
    }
  }

  lemma LevelOfDependent(dependent: seq<Dependent>, d: Dependent)
    requires d in dependent && forall i, j :: 0 <= i < j < |dependent| ==> dependent[i].name != dependent[j].name
    ensures d.name in DependentLevels(dependent) && DependentLevels(dependent)[d.name] == d.level
    decreases |dependent|
  {
    var last := |dependent| - 1;
    if d != dependent[last] {
      var i :| 0 <= i < |dependent| && dependent[i] == d;
      assert dependent[..last][i] == d;
      LevelOfDependent(dependent[..last], d);
    }
  }

  lemma {:induction false} LevelOfMeans(dependent: seq<Dependent>, n: string)
    requires n in DependentLevels(dependent)
    ensures exists d :: d in dependent && d.name == n && d.level == DependentLevels(dependent)[n]
    decreases |dependent|
  {
    var last := |dependent| - 1;
    if dependent[last].name == n {
      assert dependent[last] in dependent;
    } else {
      LevelOfMeans(dependent[..last], n);
    }
  }

  ghost predicate IsHeuristic(layers: seq<Layer>, c: Computed) {
    exists k, i :: 0 <= k < |layers| && layers[k].Heuristics? && 0 <= i < |layers[k].values|
                && layers[k].values[i] == Heuristic(c.name, Some(c.inputs))
  }

  lemma {:induction false} ComputedInLayer(r: Roles, params: map<string, bool>, inner: set<string>, layers: seq<Layer>,
                                           k: nat, values: seq<Heuristic>, i: nat)
    requires k < |layers| && layers[k] == Heuristics(values) && i <= |values|
    requires AfterHeuristics(r, params, inner, values[..i]).Some? && forall c :: c in r.computed ==>
        IsHeuristic(layers, c)
    ensures forall c :: c in AfterHeuristics(r, params, inner, values[..i]).value.computed ==> IsHeuristic(layers, c)
    decreases i
  {
    if i > 0 {
      assert values[..i][..i - 1] == values[..i - 1];
      ComputedInLayer(r, params, inner, layers, k, values, i - 1);
      var c := Computed(values[i - 1].name,
                        MaxKnown(AfterHeuristics(r, params, inner, values[..i - 1]).value.info,
                        values[i - 1].inputs.value), values[i - 1].inputs.value);
      assert layers[k].values[i - 1] == Heuristic(c.name, Some(c.inputs));
      assert IsHeuristic(layers, c);
    }
  }

  lemma {:induction false} ComputedInLayers(params: map<string, bool>, baked: set<string>, layers: seq<Layer>, k: nat)
    requires k <= |layers| && AfterLayers(params, baked, layers, k).Some?
    ensures forall c :: c in AfterLayers(params, baked, layers, k).value.computed ==> IsHeuristic(layers, c)
    decreases k
  {
    if k > 0 {
      ComputedInLayers(params, baked, layers, k - 1);
      var r, inner := AfterLayers(params, baked, layers, k - 1).value, AssignedFrom(layers, k);
      match layers[k - 1]
      case Autotuner(keys, configs) =>
        KeysComputeNothing(r, params, inner, keys);
        var keyed := AfterKeys(r, params, inner, keys).value;
        NamesInfo(keyed.0, params, Distinct(AllNames(configs)), keyed.1);
      case Heuristics(values) =>
        assert values[..|values|] == values;
        ComputedInLayer(r, params, inner, layers, k - 1, values, |values|);
    }
  }

  /** With no forward read in any layer, nothing is read too early. */
  lemma NoForwardReadsLower(params: map<string, bool>, baked: set<string>, layers: seq<Layer>)
    requires Analysis(params, baked, layers).Some? && NoForwardReads(layers)
    ensures ForwardReadsLower(Analysis(params, baked, layers).value, layers)
  {
    ComputedInLayers(params, baked, layers, |layers|);
    var plan := Analysis(params, baked, layers).value;
    hide AfterLayers;
    hide Forward;
    hide LowerThan;
    forall c, n | c in plan.computed && n in c.inputs
      ensures !Forward(layers, c.name, n)
    {
      var k, i :| 0 <= k < |layers| && layers[k].Heuristics? && 0 <= i < |layers[k].values|
          && layers[k].values[i] == Heuristic(c.name, Some(c.inputs));
      assert n in InputsOf(layers[k].values[i]);
    }
  }

  /** The guard fires exactly when a computed heuristic reads ahead in its layer a dependent that got
      no lower level than its own. */
  lemma GuardFiresExactly(params: map<string, bool>, baked: set<string>, layers: seq<Layer>)
    requires Analysis(params, baked, layers).Some?
    ensures var plan := Analysis(params, baked, layers).value;
      GuardFires(plan) <==> exists c, d :: ReadsAheadOf(plan, layers, c, d)
  {
    var plan := Analysis(params, baked, layers).value;
    var r := AfterLayers(params, baked, layers, |layers|).value;
    LayersTidy(params, baked, layers, |layers|);
    SlotsHold(plan);
    hide AfterLayers;
    hide Slots;
    hide Forward;
    if GuardFires(plan) {
      var c :| c in plan.computed && ReadsEarly(c, DependentLevels(plan.dependent));
      var n :| n in c.inputs && n in DependentLevels(plan.dependent) && DependentLevels(plan.dependent)[n] >= c.level;
      LevelOfMeans(plan.dependent, n);
      var d :| d in plan.dependent && d.name == n && d.level == DependentLevels(plan.dependent)[n];
      var j :| 0 <= j < |Slots(plan)| && Slots(plan)[j] == c;
      ReadyAt(plan, params, baked, layers, r, j, n);
      assert ReadsAheadOf(plan, layers, c, d);
    }
    if c, d :| ReadsAheadOf(plan, layers, c, d) {
      LevelOfDependent(plan.dependent, d);
      assert ReadsEarly(c, DependentLevels(plan.dependent));
    }
  }

  /** So where every forward read is of a lower level it never fires. */
  lemma GuardNeverFires(params: map<string, bool>, baked: set<string>, layers: seq<Layer>)
    requires Analysis(params, baked, layers).Some?
    ensures var plan := Analysis(params, baked, layers).value; ForwardReadsLower(plan, layers) ==> !GuardFires(plan)
  {
    var plan := Analysis(params, baked, layers).value;
    GuardFiresExactly(params, baked, layers);
    hide Analysis;
    hide Forward;
    if ForwardReadsLower(plan, layers) {
      assert forall c, d ::
          c in plan.computed && d in plan.dependent && d.name in c.inputs && Forward(layers, c.name, d.name) ==>
            LowerThan(plan, c, d.name);
    }
  }

  /** Every dependent's record is a level there is. */
  lemma DependentsBelow(params: map<string, bool>, baked: set<string>, layers: seq<Layer>)
    requires Analysis(params, baked, layers).Some?
    ensures var plan := Analysis(params, baked, layers).value;
      && (forall d :: d in plan.dependent ==> d.level < plan.levels)
      && forall c :: c in plan.computed ==> c.level < plan.levels
  {
    LayersKeep(params, baked, layers, |layers|);
    LayersTidy(params, baked, layers, |layers|);
    var r := AfterLayers(params, baked, layers, |layers|).value;
    assert forall d :: d in r.dependent ==> r.info[d.name].level == d.level;
  }

  // ---------------------------------------------------------------- two chains that read ahead

  /** A runtime parameter `x`, and a layer whose `f` reads `x` and `g`, which it assigns after `f`. */
  function ReadsAhead(g: Heuristic): seq<Layer> {
    [Heuristics([Heuristic("f", Some(["x", "g"])), g])]
  }

  lemma ReadsAheadRoles(g: Heuristic, params: map<string, bool>)
    requires params == map["x" := false, "f" := true, "g" := true]
    requires g == Heuristic("g", Some([])) || g == Heuristic("g", Some(["x"]))
    ensures var r := AfterLayers(params, {}, ReadsAhead(g), 1);
      && r.Some? && [Computed("f", 0, ["x", "g"])] <= r.value.computed
      && (g.inputs.value == [] ==> r.value.dependent == [Dependent("g", 0)] && |r.value.computed| == 1)
      && (g.inputs.value != [] ==>
        r.value.dependent == [] && r.value.computed == [Computed("f", 0, ["x", "g"]), Computed("g", 0, ["x"])])
  {
    var layers, f := ReadsAhead(g), Heuristic("f", Some(["x", "g"]));
    var start := Start(params, {});
    assert AssignedFrom(layers, 1) == {};
    assert AfterLayers(params, {}, layers, 0) == Some(start);
    assert MaxKnown(start.info, ["x", "g"]) == 0 by {
      assert ["x", "g"][..1] == ["x"] && ["x"][..0] == [];
      assert MaxKnown(start.info, ["x"]) == 0;
    }
    assert "x" in ["x", "g"] && !start.info["x"].exact;
    var r1 := AfterHeuristic(start, params, {}, f).value;
    assert r1.info["f"] == Info(true, 0, 0) && r1.computed == [Computed("f", 0, ["x", "g"])];
    assert MaxKnown(r1.info, ["x"]) == 0 by {
      assert ["x"][..0] == [];
    }
    assert g.inputs.value != [] ==> "x" in g.inputs.value && !r1.info["x"].exact;
    assert [f, g][..1] == [f] && [f][..0] == [];
    assert AfterHeuristics(start, params, {}, [f]) == Some(r1);
    assert AfterHeuristics(start, params, {}, [f, g]) == AfterHeuristic(r1, params, {}, g);
  }

  /** `analyze` accepts a heuristic reading a dependent its layer assigns later, and then the guard
      fires: the report of a bug is reachable. */
  lemma GuardCanFire(params: map<string, bool>)
    requires params == map["x" := false, "f" := true, "g" := true]
    ensures var plan := Analysis(params, {}, ReadsAhead(Heuristic("g", Some([])))); plan.Some? && GuardFires(plan.value)
  {
    var g := Heuristic("g", Some([]));
    ReadsAheadRoles(g, params);
    var plan := Analysis(params, {}, ReadsAhead(g)).value;
    var c := Computed("f", 0, ["x", "g"]);
    assert plan.computed[0] == c;
    LevelOfDependent(plan.dependent, Dependent("g", 0));
    assert "g" in c.inputs;
    assert ReadsEarly(c, DependentLevels(plan.dependent));
  }

  /** When the name read ahead is a computed key no guard looks: the plan is rendered, and C reads
      a comp slot it has not yet filled. */
  lemma SlotReadTooEarly(params: map<string, bool>)
    requires params == map["x" := false, "f" := true, "g" := true]
    ensures var plan := Analysis(params, {}, ReadsAhead(Heuristic("g", Some(["x"]))));
            plan.Some? && !GuardFires(plan.value) && !AllReady(plan.value)
  {
    var g := Heuristic("g", Some(["x"]));
    var layers := ReadsAhead(g);
    ReadsAheadRoles(g, params);
    var plan := Analysis(params, {}, layers).value;
    ReadyExactly(params, {}, layers);
    var c := Computed("f", 0, ["x", "g"]);
    assert c in plan.computed && "g" in c.inputs && Computed("g", 0, ["x"]) in plan.computed;
    assert layers[0].values[0].name == "f" && layers[0].values[1].name == "g";
    assert Forward(layers, "f", "g");
    assert !LowerThan(plan, c, "g");
  }
}
