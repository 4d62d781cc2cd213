/** What a chain of tuning layers computes for a call, and why the key chain of `analyze` fixes
    it (intj/tuning.py). */
module TunedValues {
  import opened Optional
  import opened Tuning

  /** Any Python value, or the exception raised in its place. */
  type Value = int

  type Env = map<string, Value>

  /** `descriptor` is what the level-0 key holds of every argument besides exact values. */
  datatype Call = Call(descriptor: Value, args: Env)

  /** Triton's layers, from outside: an autotuner's choice is a function of the descriptors and of
      the values it keys on, one of its configs with that one's names; a heuristic is a function of
      what it reads. */
  datatype Triton = Triton(choose: (nat, Value, Env) -> Env, heuristic: (string, Env) -> Value)

  /** `chosen` gives the names of one of the configs, and no other. */
  ghost predicate FromConfig(configs: seq<seq<string>>, chosen: Env) {
    exists j :: 0 <= j < |configs| && forall n :: n in chosen <==> n in configs[j]
  }

  ghost predicate Chooses(t: Triton, k: nat, layer: Layer) {
    layer.Autotuner? ==> forall d, keys :: FromConfig(layer.configs, t.choose(k, d, keys))
  }

  /** Every autotuner of the chain chooses among its configs. */
  ghost predicate ChoosesAll(t: Triton, layers: seq<Layer>) {
    forall k :: 0 <= k < |layers| ==> Chooses(t, k, layers[k])
  }

  function Restricted(env: Env, names: set<string>): Env {
    map n | n in env && n in names :: env[n]
  }

  function KeysOf(params: map<string, bool>, keys: seq<string>): set<string> {
    set k | k in keys && k in params
  }

  function InputsOf(h: Heuristic): set<string> {
    if h.inputs.None? then {} else set n | n in h.inputs.value
  }

  function WithHeuristic(t: Triton, env: Env, h: Heuristic): Env {
    env[h.name := t.heuristic(h.name, Restricted(env, InputsOf(h)))]
  }

  function WithHeuristics(t: Triton, env: Env, values: seq<Heuristic>): Env {
    if values == [] then env
    else WithHeuristic(t, WithHeuristics(t, env, values[..|values| - 1]), values[|values| - 1])
  }

  function WithLayer(t: Triton, params: map<string, bool>, call: Call, env: Env, k: nat, layer: Layer): Env {
    match layer
    case Autotuner(keys, configs) =>
      env + t.choose(k, call.descriptor, Restricted(env, KeysOf(params, keys)))
    case Heuristics(values) => WithHeuristics(t, env, values)
  }

  /** The values of every name after the first `k` layers. */
  function ValuesAfter(t: Triton, params: map<string, bool>, call: Call, layers: seq<Layer>, k: nat): Env
    requires k <= |layers|
  {
    if k == 0 then call.args
      else WithLayer(t, params, call, ValuesAfter(t, params, call, layers, k - 1), k - 1, layers[k - 1])
  }

  function Values(t: Triton, params: map<string, bool>, call: Call, layers: seq<Layer>): Env {
    ValuesAfter(t, params, call, layers, |layers|)
  }

  /** The two agree on `n`, down to its being missing. */
  ghost predicate Same(a: Env, b: Env, n: string) {
    (n in a <==> n in b) && (n in a ==> a[n] == b[n])
  }

  /** The two agree on every exact value of level at most `top`. */
  ghost predicate SameTo(r: Roles, a: Env, b: Env, top: nat) {
    forall n :: n in r.info && r.info[n].exact && r.info[n].level <= top ==> Same(a, b, n)
  }

  // ---------------------------------------------------------------- the names a chain gives

  /** Some config of an autotuner gives the name, or a heuristic is for it. */
  ghost predicate Gives(layer: Layer, x: string) {
    match layer
    case Autotuner(_, configs) => exists j :: 0 <= j < |configs| && x in configs[j]
    case Heuristics(values) => exists i :: 0 <= i < |values| && values[i].name == x
  }

  lemma {:induction false} AllNamesMember(configs: seq<seq<string>>, x: string)
    ensures x in AllNames(configs) <==> exists j :: 0 <= j < |configs| && x in configs[j]
    decreases |configs|
  {
    if configs != [] {
      var last := |configs| - 1;
      AllNamesMember(configs[..last], x);
      if j :| 0 <= j < last && x in configs[j] {
        assert x in configs[..last][j];
      }
    }
  }

  lemma AssignsGiven(layer: Layer, x: string)
    ensures x in Assigns(layer) <==> Gives(layer, x)
  {
    if layer.Autotuner? {
      AllNamesMember(layer.configs, x);
    }
  }

  /** What an autotuner chooses, its layer assigns. */
  lemma ChosenAssigned(t: Triton, k: nat, layer: Layer, d: Value, keys: Env)
    requires layer.Autotuner? && Chooses(t, k, layer)
    ensures t.choose(k, d, keys).Keys <= Assigns(layer)
  {
    forall x | x in t.choose(k, d, keys)
      ensures x in Assigns(layer)
    {
      assert FromConfig(layer.configs, t.choose(k, d, keys));
      AssignsGiven(layer, x);
    }
  }

  // ---------------------------------------------------------------- what the analysis keeps

  /** Every name assigned is exact and has its role; only unassigned parameters are inexact. */
  ghost predicate Regular(r: Roles, params: map<string, bool>) {
    && (forall n :: n in r.given ==> n in r.info && r.info[n].exact)
    && (forall n :: n in r.info && !r.info[n].exact ==> n in params && r.info[n] == Info(false, 0, 0))
    && (forall n :: n in params ==> n in r.info)
    && (forall d :: d in r.dependent ==> d.name in r.given && r.info[d.name] == Info(true, d.level, d.level + 1))
    && (forall c :: c in r.computed ==> c.name in r.given && r.info[c.name] == Info(true, c.level, c.level))
    && (forall n :: n in r.given ==>
      (exists d :: d in r.dependent && d.name == n) || (exists c :: c in r.computed && c.name == n))
  }

  /** What a later stage of the analysis keeps of an earlier one. */
  ghost predicate Grows(r: Roles, r': Roles) {
    && r.given <= r'.given && r.exactKeys <= r'.exactKeys && r.dependent <= r'.dependent && r.computed <= r'.computed
    && (forall n :: n in r.info ==> n in r'.info && (r.info[n].exact ==> r'.info[n].exact))
    && forall n :: n in r.given && n in r.info ==> n in r'.info && r'.info[n] == r.info[n]
  }

  lemma StartRegular(params: map<string, bool>, baked: set<string>)
    ensures Regular(Start(params, baked), params)
  {
  }

  lemma KeyKeeps(r: Roles, params: map<string, bool>, inner: set<string>, key: string, level: nat)
    requires Regular(r, params) && AfterKey(r, params, inner, key, level).Some?
    ensures var r' := AfterKey(r, params, inner, key, level).value.0;
            Regular(r', params) && Grows(r, r') && r'.given == r.given
  {
  }

  lemma {:induction false} KeysKeep(r: Roles, params: map<string, bool>, inner: set<string>, keys: seq<string>)
    requires Regular(r, params) && AfterKeys(r, params, inner, keys).Some?
    ensures var r' := AfterKeys(r, params, inner, keys).value.0;
            Regular(r', params) && Grows(r, r') && r'.given == r.given
    decreases |keys|
  {
    if keys != [] {
      KeysKeep(r, params, inner, keys[..|keys| - 1]);
      var before := AfterKeys(r, params, inner, keys[..|keys| - 1]).value;
      KeyKeeps(before.0, params, inner, keys[|keys| - 1], before.1);
    }
  }

  lemma TunedKeeps(r: Roles, params: map<string, bool>, name: string, level: nat)
    requires Regular(r, params) && AfterTuned(r, params, name, level).Some?
    ensures var r' := AfterTuned(r, params, name, level).value; Regular(r', params) && Grows(r, r')
  {
    var r' := AfterTuned(r, params, name, level).value;
    assert r'.dependent[|r.dependent|] == Dependent(name, level);
    forall n | n in r'.given
      ensures (exists d :: d in r'.dependent && d.name == n) || (exists c :: c in r'.computed && c.name == n)
    {
      if n == name {
        assert Dependent(name, level) in r'.dependent;
      } else if exists d :: d in r.dependent && d.name == n {
        var d :| d in r.dependent && d.name == n;
        assert d in r'.dependent;
      }
    }
  }

  lemma {:induction false} NamesKeep(r: Roles, params: map<string, bool>, names: seq<string>, level: nat)
    requires Regular(r, params) && AfterNames(r, params, names, level).Some?
    ensures var r' := AfterNames(r, params, names, level).value; Regular(r', params) && Grows(r, r')
    decreases |names|
  {
    if names != [] {
      var last := |names| - 1;
      NamesKeep(r, params, names[..last], level);
      TunedKeeps(AfterNames(r, params, names[..last], level).value, params, names[last], level);
    }
  }

  lemma {:induction false} NamesInfo(r: Roles, params: map<string, bool>, names: seq<string>, level: nat)
    requires AfterNames(r, params, names, level).Some?
    ensures var r' := AfterNames(r, params, names, level).value;
      && r'.given == r.given + (set n | n in names) && r'.exactKeys == r.exactKeys && r'.computed == r.computed
      && (forall n :: n in names ==> n !in r.given && n in r'.info && r'.info[n] == Info(true, level, level + 1))
      && forall n :: n !in names && n in r'.info ==> n in r.info && r'.info[n] == r.info[n]
    decreases |names|
  {
    if names != [] {
      var last := |names| - 1;
      NamesInfo(r, params, names[..last], level);
      assert names == names[..last] + [names[last]];
    }
  }

  lemma HeuristicKeeps(r: Roles, params: map<string, bool>, inner: set<string>, h: Heuristic)
    requires Regular(r, params) && AfterHeuristic(r, params, inner, h).Some?
    ensures var r' := AfterHeuristic(r, params, inner, h).value;
      Regular(r', params) && Grows(r, r') && r'.given == r.given + {h.name} && h.name !in r.given
  {
    var r' := AfterHeuristic(r, params, inner, h).value;
    forall n | n in r'.given
      ensures (exists d :: d in r'.dependent && d.name == n) || (exists c :: c in r'.computed && c.name == n)
    {
      if n == h.name {
        assert |r'.dependent| > |r.dependent| ==> r'.dependent[|r.dependent|].name == n;
        assert |r'.computed| > |r.computed| ==> r'.computed[|r.computed|].name == n;
      } else if exists d :: d in r.dependent && d.name == n {
        var d :| d in r.dependent && d.name == n;
        assert d in r'.dependent;
      } else {
        var c :| c in r.computed && c.name == n;
        assert c in r'.computed;
      }
    }
  }

  lemma {:induction false} HeuristicsKeep(r: Roles, params: map<string, bool>, inner: set<string>,
                                          values: seq<Heuristic>)
    requires Regular(r, params) && AfterHeuristics(r, params, inner, values).Some?
    ensures var r' := AfterHeuristics(r, params, inner, values).value;
      Regular(r', params) && Grows(r, r') && r'.given == r.given + HeuristicNames(values)
    decreases |values|
  {
    if values != [] {
      var last := |values| - 1;
      HeuristicsKeep(r, params, inner, values[..last]);
      HeuristicKeeps(AfterHeuristics(r, params, inner, values[..last]).value, params, inner, values[last]);
      NamesSplit(values);
    }
  }

  lemma NamesSplit(values: seq<Heuristic>)
    requires values != []
    ensures HeuristicNames(values) == HeuristicNames(values[..|values| - 1]) + {values[|values| - 1].name}
  {
    forall n | n in HeuristicNames(values)
      ensures n in HeuristicNames(values[..|values| - 1]) + {values[|values| - 1].name}
    {
      var i :| 0 <= i < |values| && values[i].name == n;
      assert i < |values| - 1 ==> values[..|values| - 1][i].name == n;
    }
    forall n | n in HeuristicNames(values[..|values| - 1])
      ensures n in HeuristicNames(values)
    {
      var i :| 0 <= i < |values| - 1 && values[..|values| - 1][i].name == n;
      assert values[i].name == n;
    }
  }

  lemma LayerKeeps(r: Roles, params: map<string, bool>, inner: set<string>, layer: Layer)
    requires Regular(r, params) && AfterLayer(r, params, inner, layer).Some?
    ensures var r' := AfterLayer(r, params, inner, layer).value;
      Regular(r', params) && Grows(r, r') && r'.given == r.given + Assigns(layer) && r.given !! Assigns(layer)
  {
    match layer
    case Autotuner(keys, configs) =>
      KeysKeep(r, params, inner, keys);
      var keyed := AfterKeys(r, params, inner, keys).value;
      NamesKeep(keyed.0, params, Distinct(AllNames(configs)), keyed.1);
      NamesInfo(keyed.0, params, Distinct(AllNames(configs)), keyed.1);
    case Heuristics(values) =>
      HeuristicsKeep(r, params, inner, values);
      HeuristicsFresh(r, params, inner, values);
  }

  lemma {:induction false} HeuristicsFresh(r: Roles, params: map<string, bool>, inner: set<string>,
                                           values: seq<Heuristic>)
    requires Regular(r, params) && AfterHeuristics(r, params, inner, values).Some?
    ensures r.given !! HeuristicNames(values)
    decreases |values|
  {
    if values != [] {
      var last := |values| - 1;
      HeuristicsFresh(r, params, inner, values[..last]);
      HeuristicsKeep(r, params, inner, values[..last]);
      NamesSplit(values);
    }
  }

  lemma {:induction false} LayersKeep(params: map<string, bool>, baked: set<string>, layers: seq<Layer>, k: nat)
    requires k <= |layers| && AfterLayers(params, baked, layers, k).Some?
    ensures Regular(AfterLayers(params, baked, layers, k).value, params)
    decreases k
  {
    if k == 0 {
      StartRegular(params, baked);
    } else {
      LayersKeep(params, baked, layers, k - 1);
      LayerKeeps(AfterLayers(params, baked, layers, k - 1).value, params, AssignedFrom(layers, k), layers[k - 1]);
    }
  }

  lemma {:induction false} LayersGrow(params: map<string, bool>, baked: set<string>, layers: seq<Layer>, k: nat, n: nat)
    requires k <= n <= |layers| && AfterLayers(params, baked, layers, n).Some?
    ensures AfterLayers(params, baked, layers, k).Some?
    ensures Grows(AfterLayers(params, baked, layers, k).value, AfterLayers(params, baked, layers, n).value)
    decreases n
  {
    if k < n {
      LayersGrow(params, baked, layers, k, n - 1);
      LayersKeep(params, baked, layers, n - 1);
      LayerKeeps(AfterLayers(params, baked, layers, n - 1).value, params, AssignedFrom(layers, n), layers[n - 1]);
    }
  }

  // ---------------------------------------------------------------- values, once assigned, stay

  lemma {:induction false} HeuristicsStay(t: Triton, env: Env, values: seq<Heuristic>, n: string)
    requires n !in HeuristicNames(values)
    ensures Same(WithHeuristics(t, env, values), env, n)
    decreases |values|
  {
    if values != [] {
      NamesSplit(values);
      HeuristicsStay(t, env, values[..|values| - 1], n);
    }
  }

  lemma LayerStays(t: Triton, params: map<string, bool>, call: Call, env: Env, k: nat, layer: Layer, n: string)
    requires n !in Assigns(layer) && Chooses(t, k, layer)
    ensures Same(WithLayer(t, params, call, env, k, layer), env, n)
  {
    match layer
    case Autotuner(keys, _) =>
      ChosenAssigned(t, k, layer, call.descriptor, Restricted(env, KeysOf(params, keys)));
    case Heuristics(values) =>
      HeuristicsStay(t, env, values, n);
  }

  /** A name assigned by the first `k` layers has its last value. */
  lemma {:induction false} ValuesStay(t: Triton, params: map<string, bool>, baked: set<string>, call: Call,
                                      layers: seq<Layer>, k: nat, n: nat, x: string)
    requires ChoosesAll(t, layers) && k <= n <= |layers| && AfterLayers(params, baked, layers, n).Some?
    requires AfterLayers(params, baked, layers, k).Some? && x in AfterLayers(params, baked, layers, k).value.given
    ensures Same(ValuesAfter(t, params, call, layers, n), ValuesAfter(t, params, call, layers, k), x)
    decreases n
  {
    if k < n {
      LayersGrow(params, baked, layers, k, n - 1);
      StillFree(params, baked, layers, n, x);
      hide Regular;
      hide AfterLayer;
      ValuesStay(t, params, baked, call, layers, k, n - 1, x);
      LayerStays(t, params, call, ValuesAfter(t, params, call, layers, n - 1), n - 1, layers[n - 1], x);
    }
  }

  /** A layer assigns only names no layer around it has. */
  lemma StillFree(params: map<string, bool>, baked: set<string>, layers: seq<Layer>, n: nat, x: string)
    requires 0 < n <= |layers| && AfterLayers(params, baked, layers, n).Some?
    requires x in AfterLayers(params, baked, layers, n - 1).value.given
    ensures x !in Assigns(layers[n - 1])
  {
    LayersKeep(params, baked, layers, n - 1);
    LayerKeeps(AfterLayers(params, baked, layers, n - 1).value, params, AssignedFrom(layers, n), layers[n - 1]);
  }

  /** A name no layer has assigned yet has the value the caller gave, if any. */
  lemma {:induction false} ValuesUntouched(t: Triton, params: map<string, bool>, baked: set<string>, call: Call,
                                           layers: seq<Layer>, k: nat, x: string)
    requires ChoosesAll(t, layers) && k <= |layers| && AfterLayers(params, baked, layers, k).Some?
    requires x !in AfterLayers(params, baked, layers, k).value.given
    ensures Same(ValuesAfter(t, params, call, layers, k), call.args, x)
    decreases k
  {
    if k > 0 {
      LayersKeep(params, baked, layers, k - 1);
      LayerKeeps(AfterLayers(params, baked, layers, k - 1).value, params, AssignedFrom(layers, k), layers[k - 1]);
      ValuesUntouched(t, params, baked, call, layers, k - 1, x);
      LayerStays(t, params, call, ValuesAfter(t, params, call, layers, k - 1), k - 1, layers[k - 1], x);
    }
  }

  // ---------------------------------------------------------------- the keys fix the values

  /** The names a plan tunes: `TuningPlan.tuned`. */
  ghost predicate Tunes(plan: Plan, x: string) {
    (exists d :: d in plan.dependent && d.name == x) || (exists c :: c in plan.computed && c.name == x)
  }

  /** Neither call passes a tuned name, and their level-0 keys agree: the descriptors, every
      constexpr or baked parameter, and every exact key. */
  ghost predicate SameBase(params: map<string, bool>, baked: set<string>, plan: Plan, a: Call, b: Call) {
    && a.descriptor == b.descriptor
    && (forall n :: n in params && (params[n] || n in baked) ==> Same(a.args, b.args, n))
    && (forall n :: n in plan.exactKeys ==> Same(a.args, b.args, n))
    && forall n :: Tunes(plan, n) ==> n !in a.args && n !in b.args
  }

  /** Their computed keys agree through level `top`. */
  ghost predicate SameComputed(plan: Plan, va: Env, vb: Env, top: nat) {
    forall c :: c in plan.computed && c.level <= top ==> Same(va, vb, c.name)
  }

  lemma RestrictedSame(a: Env, b: Env, names: set<string>)
    requires forall n :: n in names ==> Same(a, b, n)
    ensures Restricted(a, names) == Restricted(b, names)
  {
  }

  lemma {:induction false} InputLevel(info: map<string, Info>, inputs: seq<string>, n: string)
    requires n in inputs && n in info
    ensures info[n].level <= MaxLevel(info, inputs) && info[n].known <= MaxKnown(info, inputs)
    decreases |inputs|
  {
    var last := |inputs| - 1;
    if n != inputs[last] {
      assert inputs == inputs[..last] + [inputs[last]];
      InputLevel(info, inputs[..last], n);
    }
  }

  lemma KeySame(r: Roles, params: map<string, bool>, inner: set<string>, key: string, level: nat, a: Env, b: Env,
                top: nat)
    requires Regular(r, params) && AfterKey(r, params, inner, key, level).Some? && SameTo(r, a, b, top)
    requires key in AfterKey(r, params, inner, key, level).value.0.exactKeys && key !in r.given ==> Same(a, b, key)
    ensures SameTo(AfterKey(r, params, inner, key, level).value.0, a, b, top)
    ensures level <= AfterKey(r, params, inner, key, level).value.1
    ensures var (r', level') := AfterKey(r, params, inner, key, level).value;
      key in params ==> key in r'.info && r'.info[key].exact && r'.info[key].level <= level'
  {
  }

  lemma {:induction false} KeysSame(r: Roles, params: map<string, bool>, inner: set<string>, keys: seq<string>, a: Env,
                                    b: Env, top: nat)
    requires Regular(r, params) && AfterKeys(r, params, inner, keys).Some? && SameTo(r, a, b, top)
    requires forall k :: k in AfterKeys(r, params, inner, keys).value.0.exactKeys && k !in r.given ==> Same(a, b, k)
    ensures SameTo(AfterKeys(r, params, inner, keys).value.0, a, b, top)
    ensures var (r', level) := AfterKeys(r, params, inner, keys).value;
      forall k :: k in KeysOf(params, keys) ==> k in r'.info && r'.info[k].exact && r'.info[k].level <= level
    decreases |keys|
  {
    if keys != [] {
      var last := |keys| - 1;
      var (r1, level1) := AfterKeys(r, params, inner, keys[..last]).value;
      KeysKeep(r, params, inner, keys[..last]);
      KeyKeeps(r1, params, inner, keys[last], level1);
      var (r', level) := AfterKeys(r, params, inner, keys).value;
      assert forall k :: k in r1.exactKeys ==> k in r'.exactKeys;
      KeysSame(r, params, inner, keys[..last], a, b, top);
      KeySame(r1, params, inner, keys[last], level1, a, b, top);
      LastKey(r1, params, inner, keys, level1);
    }
  }

  lemma LastKey(r: Roles, params: map<string, bool>, inner: set<string>, keys: seq<string>, level: nat)
    requires keys != [] && AfterKey(r, params, inner, keys[|keys| - 1], level).Some?
    requires forall k :: k in KeysOf(params, keys[..|keys| - 1]) ==>
        k in r.info && r.info[k].exact && r.info[k].level <= level
    ensures var (r', level') := AfterKey(r, params, inner, keys[|keys| - 1], level).value;
      forall k :: k in KeysOf(params, keys) ==> k in r'.info && r'.info[k].exact && r'.info[k].level <= level'
  {
    assert keys == keys[..|keys| - 1] + [keys[|keys| - 1]];
  }

  lemma ChosenSame(r: Roles, r': Roles, names: set<string>, level: nat, a: Env, b: Env, chosenA: Env, chosenB: Env,
                   top: nat)
    requires SameTo(r, a, b, top) && (level <= top ==> chosenA == chosenB)
    requires chosenA.Keys <= names && chosenB.Keys <= names
    requires forall n :: n in names ==> n !in a && n !in b && n in r'.info && r'.info[n] == Info(true, level, level + 1)
    requires forall n :: n !in names && n in r'.info ==> n in r.info && r'.info[n] == r.info[n]
    ensures SameTo(r', a + chosenA, b + chosenB, top)
  {
  }

  /** One autotune layer: where its keys agree, so do its choices. */
  lemma AutotuneSame(t: Triton, params: map<string, bool>, inner: set<string>, r: Roles, k: nat, layer: Layer, a: Call,
                     b: Call, ea: Env, eb: Env, top: nat)
    requires layer.Autotuner? && Regular(r, params) && AfterLayer(r, params, inner, layer).Some?
        && SameTo(r, ea, eb, top)
    requires a.descriptor == b.descriptor && Chooses(t, k, layer)
    requires forall x :: x in AfterLayer(r, params, inner, layer).value.exactKeys && x !in r.given ==> Same(ea, eb, x)
    requires forall x :: x in Assigns(layer) ==> x !in ea && x !in eb
    ensures SameTo(AfterLayer(r, params, inner, layer).value, WithLayer(t, params, a, ea, k, layer),
                   WithLayer(t, params, b, eb, k, layer), top)
  {
    var names := Distinct(AllNames(layer.configs));
    var (keyed, level) := AfterKeys(r, params, inner, layer.keys).value;
    NamesInfo(keyed, params, names, level);
    KeysSame(r, params, inner, layer.keys, ea, eb, top);
    hide AfterKeys;
    hide AfterNames;
    hide Regular;
    var keys := KeysOf(params, layer.keys);
    if level <= top {
      forall x | x in keys
        ensures Same(ea, eb, x)
      {
        assert keyed.info[x].exact && keyed.info[x].level <= top;
      }
      RestrictedSame(ea, eb, keys);
    }
    hide SameTo;
    ChosenAssigned(t, k, layer, a.descriptor, Restricted(ea, keys));
    ChosenAssigned(t, k, layer, b.descriptor, Restricted(eb, keys));
    ChosenSame(keyed, AfterLayer(r, params, inner, layer).value, Assigns(layer), level, ea, eb,
               t.choose(k, a.descriptor, Restricted(ea, keys)), t.choose(k, b.descriptor, Restricted(eb, keys)), top);
  }

  /** One heuristic: where what it reads agrees, so does its value; a computed one is a key. */
  lemma HeuristicSame(t: Triton, params: map<string, bool>, inner: set<string>, r: Roles, h: Heuristic, a: Env, b: Env,
                      top: nat)
    requires Regular(r, params) && AfterHeuristic(r, params, inner, h).Some? && SameTo(r, a, b, top)
    requires var r' := AfterHeuristic(r, params, inner, h).value;
      r'.computed != r.computed && r'.info[h.name].level <= top ==>
        Same(WithHeuristic(t, a, h), WithHeuristic(t, b, h), h.name)
    ensures SameTo(AfterHeuristic(r, params, inner, h).value, WithHeuristic(t, a, h), WithHeuristic(t, b, h), top)
  {
    var inputs := h.inputs.value;
    if AllExact(r.info, inputs) && MaxLevel(r.info, inputs) <= top {
      forall n | n in inputs
        ensures Same(a, b, n)
      {
        InputLevel(r.info, inputs, n);
      }
      RestrictedSame(a, b, InputsOf(h));
    }
  }

  /** A value computed early in a layer is the layer's. */
  lemma {:induction false} ValuesInLayer(t: Triton, params: map<string, bool>, inner: set<string>, r: Roles,
                                         values: seq<Heuristic>, i: nat, env: Env, x: string)
    requires i <= |values| && Regular(r, params) && AfterHeuristics(r, params, inner, values).Some?
    requires AfterHeuristics(r, params, inner, values[..i]).Some?
        && x in AfterHeuristics(r, params, inner, values[..i]).value.given
    ensures Same(WithHeuristics(t, env, values), WithHeuristics(t, env, values[..i]), x)
    ensures x in AfterHeuristics(r, params, inner, values).value.given
    decreases |values|
  {
    var last := |values| - 1;
    if i == |values| {
      assert values[..i] == values;
    } else {
      assert values[..last][..i] == values[..i];
      ValuesInLayer(t, params, inner, r, values[..last], i, env, x);
      HeuristicsKeep(r, params, inner, values[..last]);
      HeuristicKeeps(AfterHeuristics(r, params, inner, values[..last]).value, params, inner, values[last]);
    }
  }

  lemma {:induction false} HeuristicsSame(t: Triton, params: map<string, bool>, inner: set<string>, r: Roles,
                                          values: seq<Heuristic>, a: Env, b: Env, top: nat)
    requires Regular(r, params) && AfterHeuristics(r, params, inner, values).Some? && SameTo(r, a, b, top)
    requires forall c ::
               c in AfterHeuristics(r, params, inner, values).value.computed && c !in r.computed && c.level <= top ==>
               Same(WithHeuristics(t, a, values), WithHeuristics(t, b, values), c.name)
    ensures SameTo(AfterHeuristics(r, params, inner, values).value, WithHeuristics(t, a, values),
                   WithHeuristics(t, b, values), top)
    decreases |values|
  {
    if values != [] {
      var last := |values| - 1;
      var r1 := AfterHeuristics(r, params, inner, values[..last]).value;
      var r' := AfterHeuristics(r, params, inner, values).value;
      HeuristicsKeep(r, params, inner, values[..last]);
      HeuristicKeeps(r1, params, inner, values[last]);
      forall c | c in r1.computed && c !in r.computed && c.level <= top
        ensures Same(WithHeuristics(t, a, values[..last]), WithHeuristics(t, b, values[..last]), c.name)
      {
        assert c in r'.computed && c.name in r1.given;
        ValuesInLayer(t, params, inner, r, values, last, a, c.name);
        ValuesInLayer(t, params, inner, r, values, last, b, c.name);
      }
      HeuristicsSame(t, params, inner, r, values[..last], a, b, top);
      LastComputed(r1, params, inner, values[last]);
      HeuristicSame(t, params, inner, r1, values[last], WithHeuristics(t, a, values[..last]),
                    WithHeuristics(t, b, values[..last]), top);
    }
  }

  /** A heuristic that adds a computed key adds itself, at the level it got. */
  lemma LastComputed(r: Roles, params: map<string, bool>, inner: set<string>, h: Heuristic)
    requires Regular(r, params) && AfterHeuristic(r, params, inner, h).Some?
    ensures var r' := AfterHeuristic(r, params, inner, h).value;
      r'.computed != r.computed ==> exists c ::
        c in r'.computed && c !in r.computed && c.name == h.name && c.level == r'.info[h.name].level
  {
    var r' := AfterHeuristic(r, params, inner, h).value;
    if r'.computed != r.computed {
      var c := r'.computed[|r.computed|];
      assert c in r'.computed && c.name == h.name;
    }
  }

  /** A chain, what Triton computes with it, and two calls. */
  datatype Setting = Setting(t: Triton, params: map<string, bool>, baked: set<string>, layers: seq<Layer>, a: Call,
                             b: Call)

  /** An analyzed chain, and calls whose keys agree through level `top`. */
  ghost predicate KeysAgree(s: Setting, top: nat) {
    && ChoosesAll(s.t, s.layers) && Analysis(s.params, s.baked, s.layers).Some?
    && var plan := Analysis(s.params, s.baked, s.layers).value;
       && SameBase(s.params, s.baked, plan, s.a, s.b)
       && SameComputed(plan, Values(s.t, s.params, s.a, s.layers), Values(s.t, s.params, s.b, s.layers), top)
  }

  function RolesAt(s: Setting, k: nat): Roles
    requires k <= |s.layers| && AfterLayers(s.params, s.baked, s.layers, k).Some?
  {
    AfterLayers(s.params, s.baked, s.layers, k).value
  }

  function EnvAt(s: Setting, call: Call, k: nat): Env
    requires k <= |s.layers|
  {
    ValuesAfter(s.t, s.params, call, s.layers, k)
  }

  /** Every name a layer assigns is tuned. */
  lemma AssignsTuned(params: map<string, bool>, baked: set<string>, layers: seq<Layer>, k: nat, x: string)
    requires 0 < k <= |layers| && Analysis(params, baked, layers).Some? && x in Assigns(layers[k - 1])
    ensures Tunes(Analysis(params, baked, layers).value, x)
  {
    LayersGrow(params, baked, layers, k, |layers|);
    LayersKeep(params, baked, layers, |layers|);
    AssignsNew(params, baked, layers, k, x);
    hide AfterLayers;
    hide Regular;
    GivenHasRole(AfterLayers(params, baked, layers, |layers|).value, params, x);
  }

  lemma GivenHasRole(r: Roles, params: map<string, bool>, x: string)
    requires Regular(r, params) && x in r.given
    ensures (exists d :: d in r.dependent && d.name == x) || (exists c :: c in r.computed && c.name == x)
  {
  }

  /** No call passes a name a layer assigns, so none is there before the layer. */
  lemma NotPassed(s: Setting, k: nat, x: string, call: Call)
    requires 0 < k <= |s.layers| && Analysis(s.params, s.baked, s.layers).Some? && x in Assigns(s.layers[k - 1])
    requires ChoosesAll(s.t, s.layers) && x !in call.args
    ensures x !in EnvAt(s, call, k - 1)
  {
    hide AfterLayers;
    hide ValuesAfter;
    hide Assigns;
    LayersGrow(s.params, s.baked, s.layers, k, |s.layers|);
    LayersGrow(s.params, s.baked, s.layers, k - 1, k);
    AssignsNew(s.params, s.baked, s.layers, k, x);
    hide Analysis;
    ValuesUntouched(s.t, s.params, s.baked, call, s.layers, k - 1, x);
  }

  lemma AssignsNew(params: map<string, bool>, baked: set<string>, layers: seq<Layer>, k: nat, x: string)
    requires 0 < k <= |layers| && AfterLayers(params, baked, layers, k).Some? && x in Assigns(layers[k - 1])
    ensures x in AfterLayers(params, baked, layers, k).value.given
        && x !in AfterLayers(params, baked, layers, k - 1).value.given
  {
    LayersKeep(params, baked, layers, k - 1);
    LayerKeeps(AfterLayers(params, baked, layers, k - 1).value, params, AssignedFrom(layers, k), layers[k - 1]);
  }

  /** An exact key no layer has assigned is the caller's own, and in the level-0 key. */
  lemma ExactKeyAgrees(s: Setting, top: nat, k: nat, x: string)
    requires KeysAgree(s, top) && 0 < k <= |s.layers| && AfterLayers(s.params, s.baked, s.layers, k).Some?
    requires x in RolesAt(s, k).exactKeys && x !in RolesAt(s, k - 1).given
    ensures Same(EnvAt(s, s.a, k - 1), EnvAt(s, s.b, k - 1), x)
  {
    hide AfterLayers;
    hide ValuesAfter;
    LayersGrow(s.params, s.baked, s.layers, k, |s.layers|);
    LayersGrow(s.params, s.baked, s.layers, k - 1, k);
    assert x in RolesAt(s, |s.layers|).exactKeys;
    assert Same(s.a.args, s.b.args, x);
    hide KeysAgree;
    ValuesUntouched(s.t, s.params, s.baked, s.a, s.layers, k - 1, x);
    ValuesUntouched(s.t, s.params, s.baked, s.b, s.layers, k - 1, x);
  }

  lemma AutotuneStage(s: Setting, top: nat, k: nat, r: Roles, r': Roles, layer: Layer, ea: Env, eb: Env)
    requires KeysAgree(s, top) && 0 < k <= |s.layers| && s.layers[k - 1] == layer && layer.Autotuner?
    requires AfterLayers(s.params, s.baked, s.layers, k - 1) == Some(r)
        && AfterLayers(s.params, s.baked, s.layers, k) == Some(r')
    requires ea == EnvAt(s, s.a, k - 1) && eb == EnvAt(s, s.b, k - 1) && SameTo(r, ea, eb, top)
    ensures SameTo(r', WithLayer(s.t, s.params, s.a, ea, k - 1, layer),
                   WithLayer(s.t, s.params, s.b, eb, k - 1, layer), top)
  {
    hide AfterLayer;
    hide SameTo;
    hide WithLayer;
    hide Regular;
    hide Assigns;
    hide ValuesAfter;
    var inner := AssignedFrom(s.layers, k);
    assert AfterLayer(r, s.params, inner, layer) == Some(r');
    hide AfterLayers;
    LayersKeep(s.params, s.baked, s.layers, k - 1);
    forall x | x in Assigns(layer)
      ensures x !in ea && x !in eb
    {
      AssignsTuned(s.params, s.baked, s.layers, k, x);
      NotPassed(s, k, x, s.a);
      NotPassed(s, k, x, s.b);
    }
    forall x | x in r'.exactKeys && x !in r.given
      ensures Same(ea, eb, x)
    {
      ExactKeyAgrees(s, top, k, x);
    }
    AutotuneSame(s.t, s.params, inner, r, k - 1, layer, s.a, s.b, ea, eb, top);
  }

  /** A computed key agrees as soon as it is computed. */
  lemma ComputedAgrees(s: Setting, top: nat, k: nat, c: Computed)
    requires KeysAgree(s, top) && k <= |s.layers| && AfterLayers(s.params, s.baked, s.layers, k).Some?
    requires c in RolesAt(s, k).computed && c.level <= top
    ensures Same(EnvAt(s, s.a, k), EnvAt(s, s.b, k), c.name)
  {
    var n := |s.layers|;
    LayersGrow(s.params, s.baked, s.layers, k, n);
    LayersKeep(s.params, s.baked, s.layers, k);
    hide AfterLayers;
    assert c in RolesAt(s, n).computed;
    ValuesStay(s.t, s.params, s.baked, s.a, s.layers, k, n, c.name);
    ValuesStay(s.t, s.params, s.baked, s.b, s.layers, k, n, c.name);
  }

  lemma HeuristicsStage(s: Setting, top: nat, k: nat, r: Roles, r': Roles, values: seq<Heuristic>, ea: Env, eb: Env)
    requires KeysAgree(s, top) && 0 < k <= |s.layers| && s.layers[k - 1] == Heuristics(values)
    requires AfterLayers(s.params, s.baked, s.layers, k - 1) == Some(r)
        && AfterLayers(s.params, s.baked, s.layers, k) == Some(r')
    requires ea == EnvAt(s, s.a, k - 1) && eb == EnvAt(s, s.b, k - 1) && SameTo(r, ea, eb, top)
    ensures SameTo(r', WithHeuristics(s.t, ea, values), WithHeuristics(s.t, eb, values), top)
  {
    hide SameTo;
    hide Regular;
    var inner := AssignedFrom(s.layers, k);
    assert AfterHeuristics(r, s.params, inner, values) == Some(r');
    hide AfterLayer;
    hide AfterLayers;
    LayersKeep(s.params, s.baked, s.layers, k - 1);
    forall c | c in r'.computed && c.level <= top
      ensures Same(WithHeuristics(s.t, ea, values), WithHeuristics(s.t, eb, values), c.name)
    {
      ComputedAgrees(s, top, k, c);
    }
    hide KeysAgree;
    HeuristicsSame(s.t, s.params, inner, r, values, ea, eb, top);
  }

  lemma {:induction false} StagesSame(s: Setting, top: nat, k: nat)
    requires KeysAgree(s, top) && k <= |s.layers|
    ensures AfterLayers(s.params, s.baked, s.layers, k).Some?
    ensures SameTo(RolesAt(s, k), EnvAt(s, s.a, k), EnvAt(s, s.b, k), top)
    decreases k
  {
    hide AfterLayer;
    hide WithLayer;
    LayersGrow(s.params, s.baked, s.layers, k, |s.layers|);
    if k > 0 {
      StagesSame(s, top, k - 1);
      hide SameTo;
      hide KeysAgree;
      StageSame(s, top, k, RolesAt(s, k - 1), RolesAt(s, k), s.layers[k - 1], EnvAt(s, s.a, k - 1),
                EnvAt(s, s.b, k - 1));
    }
  }

  lemma StageSame(s: Setting, top: nat, k: nat, r: Roles, r': Roles, layer: Layer, ea: Env, eb: Env)
    requires KeysAgree(s, top) && 0 < k <= |s.layers| && s.layers[k - 1] == layer
    requires AfterLayers(s.params, s.baked, s.layers, k - 1) == Some(r)
        && AfterLayers(s.params, s.baked, s.layers, k) == Some(r')
    requires ea == EnvAt(s, s.a, k - 1) && eb == EnvAt(s, s.b, k - 1) && SameTo(r, ea, eb, top)
    ensures SameTo(r', WithLayer(s.t, s.params, s.a, ea, k - 1, layer),
                   WithLayer(s.t, s.params, s.b, eb, k - 1, layer), top)
  {
    hide SameTo;
    hide KeysAgree;
    hide AfterLayers;
    hide ValuesAfter;
    if layer.Autotuner? {
      AutotuneStage(s, top, k, r, r', layer, ea, eb);
    } else {
      HeuristicsStage(s, top, k, r, r', layer.values, ea, eb);
    }
  }

  /** Two calls that agree on the level-0 key and on the computed keys through level `top` agree
      on every value that `analyze` gives a level of at most `top`, whatever the chain computes. */
  lemma KeysDetermine(s: Setting, top: nat)
    requires KeysAgree(s, top)
    ensures var plan := Analysis(s.params, s.baked, s.layers).value;
      && (forall d :: d in plan.dependent && d.level <= top ==>
        Same(Values(s.t, s.params, s.a, s.layers), Values(s.t, s.params, s.b, s.layers), d.name))
      && forall c :: c in plan.computed && c.level <= top ==>
        Same(Values(s.t, s.params, s.a, s.layers), Values(s.t, s.params, s.b, s.layers), c.name)
  {
    var n := |s.layers|;
    StagesSame(s, top, n);
    LayersKeep(s.params, s.baked, s.layers, n);
    var r := RolesAt(s, n);
    forall d | d in r.dependent && d.level <= top
      ensures Same(EnvAt(s, s.a, n), EnvAt(s, s.b, n), d.name)
    {
      assert r.info[d.name] == Info(true, d.level, d.level + 1);
    }
  }
}
