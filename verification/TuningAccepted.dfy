/** Which chains `analyze` accepts, which names it tunes, and at which level (intj/tuning.py), said of
    the chain itself rather than of the steps that find it. */
module TuningAccepted {
  import opened Optional
  import opened Tuning
  import opened TunedValues

  // ---------------------------------------------------------------- the names with a role

  lemma GivenStep(params: map<string, bool>, baked: set<string>, layers: seq<Layer>, k: nat)
    requires 0 < k <= |layers| && AfterLayers(params, baked, layers, k).Some?
    ensures AfterLayers(params, baked, layers, k - 1).Some?
    ensures AfterLayers(params, baked, layers, k).value.given
         == AfterLayers(params, baked, layers, k - 1).value.given + Assigns(layers[k - 1])
  {
    LayersKeep(params, baked, layers, k - 1);
    LayerKeeps(AfterLayers(params, baked, layers, k - 1).value, params, AssignedFrom(layers, k), layers[k - 1]);
  }

  lemma {:induction false} GivenExactly(params: map<string, bool>, baked: set<string>, layers: seq<Layer>, k: nat,
                                        x: string)
    requires k <= |layers| && AfterLayers(params, baked, layers, k).Some?
    ensures x in AfterLayers(params, baked, layers, k).value.given <==> exists j :: 0 <= j < k && Gives(layers[j], x)
    decreases k
  {
    if k > 0 {
      GivenStep(params, baked, layers, k);
      GivenExactly(params, baked, layers, k - 1, x);
      AssignsGiven(layers[k - 1], x);
      hide AfterLayers;
      hide Assigns;
      hide Gives;
    }
  }

  /** A name has a role exactly when some config of some autotuner gives it or some heuristic is for it. */
  lemma TunesExactly(params: map<string, bool>, baked: set<string>, layers: seq<Layer>, x: string)
    requires Analysis(params, baked, layers).Some?
    ensures Tunes(Analysis(params, baked, layers).value, x) <==> exists k :: 0 <= k < |layers| && Gives(layers[k], x)
  {
    GivenExactly(params, baked, layers, |layers|, x);
    LayersKeep(params, baked, layers, |layers|);
    var r := AfterLayers(params, baked, layers, |layers|).value;
    assert (exists d :: d in r.dependent && d.name == x) ==> x in r.given;
  }

  lemma {:induction false} AssignedFromExactly(layers: seq<Layer>, i: nat, x: string)
    requires i <= |layers|
    ensures x in AssignedFrom(layers, i) <==> exists k :: i <= k < |layers| && Gives(layers[k], x)
    decreases |layers| - i
  {
    if i < |layers| {
      AssignedFromExactly(layers, i + 1, x);
      AssignsGiven(layers[i], x);
    }
  }

  // ---------------------------------------------------------------- the chains accepted

  /** A layer's reads: its autotune keys that are parameters, or its heuristics' inputs. */
  ghost predicate Reads(layer: Layer, params: map<string, bool>, x: string) {
    match layer
    case Autotuner(keys, _) => x in keys && x in params
    case Heuristics(values) => exists i :: 0 <= i < |values| && values[i].inputs.Some? && x in values[i].inputs.value
  }

  /** Heuristic `i` of a layer parses, and reads neither itself nor a name that is neither a
      parameter nor given before it, by a layer around it or earlier in its own. */
  ghost predicate ReadsGiven(params: map<string, bool>, layers: seq<Layer>, k: nat, i: nat)
    requires k < |layers| && layers[k].Heuristics? && i < |layers[k].values|
  {
    var h := layers[k].values[i];
    && h.inputs.Some? && h.name !in h.inputs.value
    && forall x :: x in h.inputs.value ==>
         || x in params || (exists j :: 0 <= j < k && Gives(layers[j], x))
         || exists j :: 0 <= j < i && layers[k].values[j].name == x
  }

  /** What layer `k` must be: it gives no name an outer layer gives, nor one twice, nor a runtime
      parameter; it reads no name an inner layer gives; and its heuristics read what is given. */
  ghost predicate LayerMay(params: map<string, bool>, layers: seq<Layer>, k: nat)
    requires k < |layers|
  {
    && (forall x :: Gives(layers[k], x) ==>
          (x in params ==> params[x]) && forall j :: 0 <= j < k ==> !Gives(layers[j], x))
    && (forall x :: Reads(layers[k], params, x) ==> forall j :: k < j < |layers| ==> !Gives(layers[j], x))
    && (layers[k].Heuristics? ==>
          && (forall i, j :: 0 <= i < j < |layers[k].values| ==> layers[k].values[i].name != layers[k].values[j].name)
          && forall i :: 0 <= i < |layers[k].values| ==> ReadsGiven(params, layers, k, i))
  }

  /** The names analysis has an entry for: the parameters and what was given. */
  ghost predicate Informed(r: Roles, params: map<string, bool>) {
    forall x :: x in r.info <==> x in params || x in r.given
  }

  lemma {:induction false} KeysMay(r: Roles, params: map<string, bool>, inner: set<string>, keys: seq<string>)
    requires Informed(r, params)
    ensures AfterKeys(r, params, inner, keys).Some? <==> forall x :: x in keys && x in params ==> x !in inner
    ensures AfterKeys(r, params, inner, keys).Some? ==>
              var r' := AfterKeys(r, params, inner, keys).value.0; Informed(r', params) && r'.given == r.given
    decreases |keys|
  {
    if keys != [] {
      var last := |keys| - 1;
      KeysMay(r, params, inner, keys[..last]);
      assert keys == keys[..last] + [keys[last]];
    }
  }

  lemma {:induction false} NamesMay(r: Roles, params: map<string, bool>, names: seq<string>, level: nat)
    requires Informed(r, params) && forall i, j :: 0 <= i < j < |names| ==> names[i] != names[j]
    ensures AfterNames(r, params, names, level).Some? <==>
              forall x :: x in names ==> x !in r.given && (x in params ==> params[x])
    ensures AfterNames(r, params, names, level).Some? ==>
              var r' := AfterNames(r, params, names, level).value;
              Informed(r', params) && r'.given == r.given + set x | x in names
    decreases |names|
  {
    if names != [] {
      var last := |names| - 1;
      NamesMay(r, params, names[..last], level);
      assert names == names[..last] + [names[last]];
      if AfterNames(r, params, names[..last], level).Some? {
        TunedMay(AfterNames(r, params, names[..last], level).value, params, names[last], level);
      }
      hide AfterTuned;
      hide Informed;
    }
  }

  lemma TunedMay(r: Roles, params: map<string, bool>, name: string, level: nat)
    requires Informed(r, params)
    ensures AfterTuned(r, params, name, level).Some? <==> name !in r.given && (name in params ==> params[name])
    ensures AfterTuned(r, params, name, level).Some? ==>
              var r' := AfterTuned(r, params, name, level).value; Informed(r', params) && r'.given == r.given + {name}
  {
  }

  /** The heuristics before `i` of layer `k` are accepted. */
  ghost predicate HeuristicsMay(r: Roles, params: map<string, bool>, inner: set<string>, values: seq<Heuristic>) {
    forall i :: 0 <= i < |values| ==> HeuristicMay(r, params, inner, values, i)
  }

  ghost predicate HeuristicMay(r: Roles, params: map<string, bool>, inner: set<string>, values: seq<Heuristic>, i: nat)
    requires i < |values|
  {
    var h := values[i];
    && h.inputs.Some? && h.name !in h.inputs.value
    && (forall x :: x in h.inputs.value ==>
          x !in inner && (x in params || x in r.given || exists j :: 0 <= j < i && values[j].name == x))
    && h.name !in r.given && (h.name in params ==> params[h.name])
    && forall j :: 0 <= j < i ==> values[j].name != h.name
  }

  lemma {:induction false} HeuristicsMayExactly(r: Roles, params: map<string, bool>, inner: set<string>,
                                                values: seq<Heuristic>)
    requires Informed(r, params)
    ensures AfterHeuristics(r, params, inner, values).Some? <==> HeuristicsMay(r, params, inner, values)
    ensures AfterHeuristics(r, params, inner, values).Some? ==>
              var r' := AfterHeuristics(r, params, inner, values).value;
              Informed(r', params) && r'.given == r.given + HeuristicNames(values)
    decreases |values|
  {
    if values != [] {
      var last := |values| - 1;
      HeuristicsMayExactly(r, params, inner, values[..last]);
      NamesSplit(values);
      SplitMay(r, params, inner, values);
      hide AfterHeuristic;
      hide HeuristicMay;
      hide HeuristicsMay;
      hide HeuristicNames;
      if AfterHeuristics(r, params, inner, values[..last]).Some? {
        LastMay(r, AfterHeuristics(r, params, inner, values[..last]).value, params, inner, values);
      }
    }
  }

  lemma SplitMay(r: Roles, params: map<string, bool>, inner: set<string>, values: seq<Heuristic>)
    requires values != []
    ensures HeuristicsMay(r, params, inner, values) <==>
              HeuristicsMay(r, params, inner, values[..|values| - 1])
                && HeuristicMay(r, params, inner, values, |values| - 1)
  {
    var last := |values| - 1;
    forall i | 0 <= i < last
      ensures HeuristicMay(r, params, inner, values, i) <==> HeuristicMay(r, params, inner, values[..last], i)
    {
      assert forall j :: 0 <= j <= i ==> values[..last][j] == values[j];
    }
    hide HeuristicMay;
  }

  lemma LastMay(r: Roles, before: Roles, params: map<string, bool>, inner: set<string>, values: seq<Heuristic>)
    requires values != [] && Informed(before, params)
        && before.given == r.given + HeuristicNames(values[..|values| - 1])
    ensures AfterHeuristic(before, params, inner, values[|values| - 1]).Some? <==>
              HeuristicMay(r, params, inner, values, |values| - 1)
    ensures AfterHeuristic(before, params, inner, values[|values| - 1]).Some? ==>
              var r' := AfterHeuristic(before, params, inner, values[|values| - 1]).value;
              Informed(r', params) && r'.given == before.given + {values[|values| - 1].name}
  {
    var last := |values| - 1;
    forall x
      ensures x in HeuristicNames(values[..last]) <==> exists j :: 0 <= j < last && values[j].name == x
    {
      if j :| 0 <= j < last && values[j].name == x {
        assert values[..last][j].name == x;
      }
    }
  }

  /** One layer is accepted exactly when it may be there. */
  lemma LayerMayExactly(params: map<string, bool>, baked: set<string>, layers: seq<Layer>, k: nat)
    requires k < |layers| && AfterLayers(params, baked, layers, k).Some?
    requires Informed(AfterLayers(params, baked, layers, k).value, params)
    ensures AfterLayers(params, baked, layers, k + 1).Some? <==> LayerMay(params, layers, k)
    ensures AfterLayers(params, baked, layers, k + 1).Some? ==>
              Informed(AfterLayers(params, baked, layers, k + 1).value, params)
  {
    hide AfterLayers;
    hide AfterLayer;
    hide AssignedFrom;
    hide Assigns;
    hide Gives;
    hide LayerMay;
    hide Informed;
    var r, inner := AfterLayers(params, baked, layers, k).value, AssignedFrom(layers, k + 1);
    OneLayer(params, baked, layers, k);
    LayerNames(params, baked, layers, k, inner);
    if layers[k].Autotuner? {
      AutotunerMay(r, params, inner, layers, k, layers[k].keys, layers[k].configs);
    } else {
      HeuristicsMayExactly(r, params, inner, layers[k].values);
      MayAgree(r, params, inner, layers, k, layers[k].values);
      HeuristicsLayer(r, params, inner, layers[k]);
    }
  }

  lemma HeuristicsLayer(r: Roles, params: map<string, bool>, inner: set<string>, layer: Layer)
    requires layer.Heuristics?
    ensures AfterLayer(r, params, inner, layer) == AfterHeuristics(r, params, inner, layer.values)
  {
    hide AfterHeuristics;
  }

  /** What is given outside a layer, inside it and by it. */
  lemma LayerNames(params: map<string, bool>, baked: set<string>, layers: seq<Layer>, k: nat, inner: set<string>)
    requires k < |layers| && inner == AssignedFrom(layers, k + 1) && AfterLayers(params, baked, layers, k).Some?
    ensures forall x :: x in AfterLayers(params, baked, layers, k).value.given <==>
        exists j :: 0 <= j < k && Gives(layers[j], x)
    ensures forall x :: x in inner <==> exists j :: k + 1 <= j < |layers| && Gives(layers[j], x)
    ensures forall x :: x in Assigns(layers[k]) <==> Gives(layers[k], x)
  {
    hide AfterLayers;
    hide AssignedFrom;
    hide Assigns;
    hide Gives;
    forall x
      ensures x in AfterLayers(params, baked, layers, k).value.given <==> exists j :: 0 <= j < k && Gives(layers[j], x)
    {
      GivenExactly(params, baked, layers, k, x);
    }
    forall x
      ensures x in inner <==> exists j :: k + 1 <= j < |layers| && Gives(layers[j], x)
    {
      AssignedFromExactly(layers, k + 1, x);
    }
    forall x
      ensures x in Assigns(layers[k]) <==> Gives(layers[k], x)
    {
      AssignsGiven(layers[k], x);
    }
  }

  lemma AutotunerMay(r: Roles, params: map<string, bool>, inner: set<string>, layers: seq<Layer>, k: nat,
                     keys: seq<string>, configs: seq<seq<string>>)
    requires k < |layers| && layers[k] == Autotuner(keys, configs) && Informed(r, params)
    requires forall x :: x in r.given <==> exists j :: 0 <= j < k && Gives(layers[j], x)
    requires forall x :: x in inner <==> exists j :: k + 1 <= j < |layers| && Gives(layers[j], x)
    requires forall x :: x in Assigns(layers[k]) <==> Gives(layers[k], x)
    ensures AfterLayer(r, params, inner, layers[k]).Some? <==> LayerMay(params, layers, k)
    ensures AfterLayer(r, params, inner, layers[k]).Some? ==>
              Informed(AfterLayer(r, params, inner, layers[k]).value, params)
  {
    KeysMay(r, params, inner, keys);
    assert forall x :: x in Distinct(AllNames(configs)) <==> Gives(layers[k], x);
    AutotunerAgrees(r, params, inner, layers, k, keys);
    hide Gives;
    hide LayerMay;
    hide AfterKeys;
    if AfterKeys(r, params, inner, keys).Some? {
      var keyed := AfterKeys(r, params, inner, keys).value;
      NamesMay(keyed.0, params, Distinct(AllNames(configs)), keyed.1);
    }
    hide AfterNames;
    hide Distinct;
    hide AllNames;
  }

  lemma AutotunerAgrees(r: Roles, params: map<string, bool>, inner: set<string>, layers: seq<Layer>, k: nat,
                        keys: seq<string>)
    requires k < |layers| && layers[k].Autotuner? && layers[k].keys == keys
    requires forall x :: x in r.given <==> exists j :: 0 <= j < k && Gives(layers[j], x)
    requires forall x :: x in inner <==> exists j :: k + 1 <= j < |layers| && Gives(layers[j], x)
    ensures LayerMay(params, layers, k) <==>
              && (forall x :: x in keys && x in params ==> x !in inner)
              && forall x :: Gives(layers[k], x) ==> x !in r.given && (x in params ==> params[x])
  {
    hide Gives;
    assert forall x :: Reads(layers[k], params, x) <==> x in keys && x in params;
    hide Reads;
  }

  lemma MayAgree(r: Roles, params: map<string, bool>, inner: set<string>, layers: seq<Layer>, k: nat,
                 values: seq<Heuristic>)
    requires k < |layers| && layers[k] == Heuristics(values)
    requires forall x :: x in r.given <==> exists j :: 0 <= j < k && Gives(layers[j], x)
    requires forall x :: x in inner <==> exists j :: k + 1 <= j < |layers| && Gives(layers[j], x)
    ensures HeuristicsMay(r, params, inner, values) <==> LayerMay(params, layers, k)
  {
    if HeuristicsMay(r, params, inner, values) {
      forall i | 0 <= i < |values|
        ensures ReadsGiven(params, layers, k, i)
      {
        assert HeuristicMay(r, params, inner, values, i);
      }
      forall i, j | 0 <= i < j < |values|
        ensures values[i].name != values[j].name
      {
        assert HeuristicMay(r, params, inner, values, j);
      }
      forall x | Gives(layers[k], x)
        ensures (x in params ==> params[x]) && x !in r.given
      {
        var i :| 0 <= i < |values| && values[i].name == x;
        assert HeuristicMay(r, params, inner, values, i);
      }
      forall x | Reads(layers[k], params, x)
        ensures x !in inner
      {
        var i :| 0 <= i < |values| && values[i].inputs.Some? && x in values[i].inputs.value;
        assert HeuristicMay(r, params, inner, values, i);
      }
    }
    if LayerMay(params, layers, k) {
      forall i | 0 <= i < |values|
        ensures HeuristicMay(r, params, inner, values, i)
      {
        assert ReadsGiven(params, layers, k, i) && Gives(layers[k], values[i].name);
        forall x | x in values[i].inputs.value
          ensures x !in inner
        {
          assert Reads(layers[k], params, x);
        }
      }
    }
  }

  ghost predicate LayersMay(params: map<string, bool>, layers: seq<Layer>, k: nat)
    requires k <= |layers|
  {
    forall j :: 0 <= j < k ==> LayerMay(params, layers, j)
  }

  lemma {:induction false} LayersMayExactly(params: map<string, bool>, baked: set<string>, layers: seq<Layer>, k: nat)
    requires k <= |layers|
    ensures AfterLayers(params, baked, layers, k).Some? <==> LayersMay(params, layers, k)
    ensures AfterLayers(params, baked, layers, k).Some? ==>
        Informed(AfterLayers(params, baked, layers, k).value, params)
    decreases k
  {
    hide LayerMay;
    hide Informed;
    if k == 0 {
      StartInformed(params, baked);
    } else {
      NeedsOuter(params, baked, layers, k);
      LayersMayStep(params, layers, k);
      hide AfterLayers;
      hide LayersMay;
      LayersMayExactly(params, baked, layers, k - 1);
      if AfterLayers(params, baked, layers, k - 1).Some? {
        LayerMayExactly(params, baked, layers, k - 1);
      }
    }
  }

  lemma StartInformed(params: map<string, bool>, baked: set<string>)
    ensures Informed(Start(params, baked), params)
  {
  }

  lemma LayersMayStep(params: map<string, bool>, layers: seq<Layer>, k: nat)
    requires 0 < k <= |layers|
    ensures LayersMay(params, layers, k) <==> LayersMay(params, layers, k - 1) && LayerMay(params, layers, k - 1)
  {
    hide LayerMay;
  }

  lemma NeedsOuter(params: map<string, bool>, baked: set<string>, layers: seq<Layer>, k: nat)
    requires 0 < k <= |layers|
    ensures AfterLayers(params, baked, layers, k).Some? ==> AfterLayers(params, baked, layers, k - 1).Some?
  {
  }

  /** A chain is accepted exactly when it has a layer and every layer may be where it is. */
  lemma AcceptedExactly(params: map<string, bool>, baked: set<string>, layers: seq<Layer>)
    ensures Analysis(params, baked, layers).Some? <==>
              layers != [] && forall k :: 0 <= k < |layers| ==> LayerMay(params, layers, k)
  {
    LayersMayExactly(params, baked, layers, |layers|);
  }

  // ---------------------------------------------------------------- roles and levels

  /** An autotuner among the first `k` layers keys on the name. */
  ghost predicate KeyedBefore(layers: seq<Layer>, k: nat, n: string) {
    exists j :: 0 <= j < k && j < |layers| && layers[j].Autotuner? && n in layers[j].keys
  }

  /** A name not given is an untouched parameter: exact when it is a constexpr, baked or keyed on. */
  ghost predicate Untouched(r: Roles, params: map<string, bool>, baked: set<string>, keyed: string -> bool) {
    forall n :: n in params && n !in r.given ==>
      n in r.info && r.info[n] == Info(params[n] || n in baked || keyed(n), 0, 0)
  }

  ghost function Keyed(layers: seq<Layer>, k: nat): string -> bool {
    n => KeyedBefore(layers, k, n)
  }

  ghost function KeyedToo(keyed: string -> bool, keys: seq<string>): string -> bool {
    n => keyed(n) || n in keys
  }

  /** The exact keys are the runtime parameters keyed on. */
  ghost predicate ExactKeys(r: Roles, params: map<string, bool>, baked: set<string>, keyed: string -> bool) {
    forall n :: n in r.exactKeys <==> n in params && !params[n] && n !in baked && keyed(n)
  }

  /** The level a layer's keys come to: the highest of them, 0 without any. */
  ghost predicate Highest(r: Roles, params: map<string, bool>, keys: seq<string>, level: nat) {
    && (forall n :: n in keys && n in params ==> n in r.info && r.info[n].level <= level)
    && (level == 0 || exists n :: n in keys && n in params && n in r.info && r.info[n].level == level)
  }

  /** A given name that is a parameter is a constexpr. */
  ghost predicate GivesConstexprs(r: Roles, params: map<string, bool>) {
    forall n :: n in r.given && n in params ==> params[n] && n in r.info && r.info[n].exact
  }

  /** What keying on names changes: which untouched parameters are exact. */
  ghost predicate KeyedOn(r: Roles, r': Roles) {
    && r'.given == r.given && r'.dependent == r.dependent && r'.computed == r.computed
    && (forall n :: n in r.info <==> n in r'.info)
    && forall n :: n in r.info ==> r'.info[n].level == r.info[n].level && (n in r.given ==> r'.info[n] == r.info[n])
  }

  lemma {:induction false} KeysFound(r: Roles, params: map<string, bool>, baked: set<string>, inner: set<string>,
                                     keys: seq<string>, keyed: string -> bool)
    requires Untouched(r, params, baked, keyed) && ExactKeys(r, params, baked, keyed) && GivesConstexprs(r, params)
    requires Regular(r, params) && AfterKeys(r, params, inner, keys).Some?
    ensures var (r', level) := AfterKeys(r, params, inner, keys).value;
      && Untouched(r', params, baked, KeyedToo(keyed, keys)) && ExactKeys(r', params, baked, KeyedToo(keyed, keys))
      && GivesConstexprs(r', params) && KeyedOn(r, r') && Highest(r, params, keys, level)
    decreases |keys|
  {
    if keys != [] {
      var last := |keys| - 1;
      KeysFound(r, params, baked, inner, keys[..last], keyed);
      var (r1, level1) := AfterKeys(r, params, inner, keys[..last]).value;
      assert keys == keys[..last] + [keys[last]];
      KeyFound(r1, params, baked, inner, keys, level1, KeyedToo(keyed, keys[..last]), KeyedToo(keyed, keys));
      KeysKeep(r, params, inner, keys[..last]);
      KeyRaises(r, r1, params, inner, keys, level1);
      hide Regular;
      hide Grows;
      hide Untouched;
      hide ExactKeys;
      hide GivesConstexprs;
      hide Highest;
      hide AfterKey;
    }
  }

  lemma KeyFound(r: Roles, params: map<string, bool>, baked: set<string>, inner: set<string>, keys: seq<string>,
                 level: nat, keyed: string -> bool, keyed': string -> bool)
    requires keys != [] && forall n :: keyed'(n) <==> keyed(n) || n == keys[|keys| - 1]
    requires Untouched(r, params, baked, keyed) && ExactKeys(r, params, baked, keyed) && GivesConstexprs(r, params)
    requires AfterKey(r, params, inner, keys[|keys| - 1], level).Some?
    ensures var r' := AfterKey(r, params, inner, keys[|keys| - 1], level).value.0;
      Untouched(r', params, baked, keyed') && ExactKeys(r', params, baked, keyed') && GivesConstexprs(r', params)
  {
  }

  lemma KeyRaises(r: Roles, r1: Roles, params: map<string, bool>, inner: set<string>, keys: seq<string>, level: nat)
    requires keys != [] && KeyedOn(r, r1) && Highest(r, params, keys[..|keys| - 1], level)
    requires Regular(r1, params) && AfterKey(r1, params, inner, keys[|keys| - 1], level).Some?
    ensures var (r', level') := AfterKey(r1, params, inner, keys[|keys| - 1], level).value;
      KeyedOn(r, r') && Highest(r, params, keys, level')
  {
    assert keys == keys[..|keys| - 1] + [keys[|keys| - 1]];
  }

  /** What an autotuner finds: its names become dependents of its keys' highest level, and nothing
      else is given. */
  lemma AutotunerFinds(r: Roles, params: map<string, bool>, baked: set<string>, inner: set<string>, layer: Layer,
                       keyed: string -> bool) returns (level: nat)
    requires layer.Autotuner? && AfterLayer(r, params, inner, layer).Some? && Regular(r, params)
    requires Untouched(r, params, baked, keyed) && ExactKeys(r, params, baked, keyed) && GivesConstexprs(r, params)
    ensures Highest(r, params, layer.keys, level)
    ensures var r' := AfterLayer(r, params, inner, layer).value;
      && Untouched(r', params, baked, KeyedToo(keyed, layer.keys))
        && ExactKeys(r', params, baked, KeyedToo(keyed, layer.keys))
      && GivesConstexprs(r', params) && r'.computed == r.computed && r.dependent <= r'.dependent
      && (forall x :: Gives(layer, x) ==> Dependent(x, level) in r'.dependent)
      && forall d :: d in r'.dependent ==> d in r.dependent || (Gives(layer, d.name) && d.level == level)
  {
    var names := Distinct(AllNames(layer.configs));
    KeysFound(r, params, baked, inner, layer.keys, keyed);
    var (r1, l) := AfterKeys(r, params, inner, layer.keys).value;
    level := l;
    forall x
      ensures x in names <==> Gives(layer, x)
    {
      AllNamesMember(layer.configs, x);
    }
    var r' := AfterLayer(r, params, inner, layer).value;
    assert AfterNames(r1, params, names, level) == Some(r');
    hide AfterKeys;
    hide AfterLayer;
    hide Distinct;
    hide AllNames;
    hide Regular;
    hide Gives;
    NamesKeepFacts(r1, params, baked, names, level, KeyedToo(keyed, layer.keys));
    NamesFound(r1, params, names, level);
    hide AfterNames;
    hide Untouched;
    hide ExactKeys;
    hide GivesConstexprs;
    hide Highest;
    forall x | Gives(layer, x)
      ensures Dependent(x, level) in r'.dependent
    {
      var i :| 0 <= i < |names| && names[i] == x;
      assert r'.dependent[|r.dependent| + i] == Dependent(x, level);
    }
  }

  lemma NamesKeepFacts(r: Roles, params: map<string, bool>, baked: set<string>, names: seq<string>, level: nat,
                       keyed: string -> bool)
    requires Untouched(r, params, baked, keyed) && ExactKeys(r, params, baked, keyed) && GivesConstexprs(r, params)
    requires AfterNames(r, params, names, level).Some? && forall n :: n in params ==> n in r.info
    ensures var r' := AfterNames(r, params, names, level).value;
      && Untouched(r', params, baked, keyed) && ExactKeys(r', params, baked, keyed) && GivesConstexprs(r', params)
      && r'.computed == r.computed
  {
    NamesInfo(r, params, names, level);
    NamesFound(r, params, names, level);
    NamesThere(r, params, names, level);
    hide AfterNames;
  }

  lemma {:induction false} NamesThere(r: Roles, params: map<string, bool>, names: seq<string>, level: nat)
    requires AfterNames(r, params, names, level).Some?
    ensures forall n :: n in r.info ==> n in AfterNames(r, params, names, level).value.info
    decreases |names|
  {
    if names != [] {
      NamesThere(r, params, names[..|names| - 1], level);
    }
  }

  lemma {:induction false} NamesFound(r: Roles, params: map<string, bool>, names: seq<string>, level: nat)
    requires AfterNames(r, params, names, level).Some?
    ensures var r' := AfterNames(r, params, names, level).value;
      && (forall n :: n in names ==> n in params ==> params[n])
      && r'.dependent == r.dependent + seq(|names|, i requires 0 <= i < |names| => Dependent(names[i], level))
    decreases |names|
  {
    if names != [] {
      var last := |names| - 1;
      NamesFound(r, params, names[..last], level);
      assert names == names[..last] + [names[last]];
    }
  }

  /** A heuristic's inputs' highest levels, as an autotuner's keys'. */
  ghost predicate Top(level: nat, inputs: seq<string>, of: string -> nat) {
    && (forall n :: n in inputs ==> of(n) <= level)
    && (level == 0 || exists n :: n in inputs && of(n) == level)
  }

  ghost function LevelIn(r: Roles): string -> nat {
    n => if n in r.info then r.info[n].level else 0
  }

  ghost function KnownIn(r: Roles): string -> nat {
    n => if n in r.info then r.info[n].known else 0
  }

  lemma {:induction false} MaxIsTop(info: map<string, Info>, inputs: seq<string>, r: Roles)
    requires r.info == info
    ensures Top(MaxLevel(info, inputs), inputs, LevelIn(r)) && Top(MaxKnown(info, inputs), inputs, KnownIn(r))
    decreases |inputs|
  {
    if inputs != [] {
      var last := |inputs| - 1;
      MaxIsTop(info, inputs[..last], r);
      assert inputs == inputs[..last] + [inputs[last]];
      RaisesTop(inputs, LevelIn(r), MaxLevel(info, inputs[..last]));
      RaisesTop(inputs, KnownIn(r), MaxKnown(info, inputs[..last]));
    }
  }

  lemma RaisesTop(inputs: seq<string>, of: string -> nat, level: nat)
    requires inputs != [] && Top(level, inputs[..|inputs| - 1], of)
    ensures Top(Max(level, of(inputs[|inputs| - 1])), inputs, of)
  {
    var last := |inputs| - 1;
    assert inputs == inputs[..last] + [inputs[last]];
    if level > 0 {
      var n :| n in inputs[..last] && of(n) == level;
      assert n in inputs;
    }
    assert inputs[last] in inputs && of(inputs[last]) == of(inputs[last]);
  }

  /** What a heuristic finds: it is a dependent exactly when all it reads is exact, of their highest
      level; else a computed key, of the highest count of lookups after which they are known. */
  lemma HeuristicFinds(r: Roles, params: map<string, bool>, baked: set<string>, inner: set<string>, h: Heuristic,
                       keyed: string -> bool) returns (level: nat)
    requires AfterHeuristic(r, params, inner, h).Some? && Regular(r, params) && Informed(r, params)
    requires Untouched(r, params, baked, keyed) && ExactKeys(r, params, baked, keyed) && GivesConstexprs(r, params)
    ensures var r' := AfterHeuristic(r, params, inner, h).value;
      && h.inputs.Some? && Untouched(r', params, baked, keyed) && ExactKeys(r', params, baked, keyed)
      && GivesConstexprs(r', params) && r'.given == r.given + {h.name}
      && if forall n :: n in h.inputs.value ==>
        n in r.given || (n in params && (params[n] || n in baked || keyed(n))) then
           Top(level, h.inputs.value, LevelIn(r))
           && r' == r.(info := r'.info, given := r'.given, dependent := r.dependent + [Dependent(h.name, level)])
         else
           Top(level, h.inputs.value, KnownIn(r))
           && r' == r.(info := r'.info, given := r'.given,
                       computed := r.computed + [Computed(h.name, level, h.inputs.value)])
  {
    var inputs := h.inputs.value;
    MaxIsTop(r.info, inputs, r);
    ExactInputs(r, params, baked, keyed, inner, inputs);
    HeuristicKeepsFacts(r, params, baked, inner, h, keyed);
    hide Regular;
    hide Informed;
    hide AllExact;
    hide Top;
    hide MaxLevel;
    hide MaxKnown;
    hide Untouched;
    hide ExactKeys;
    hide GivesConstexprs;
    hide MayRead;
    level := if AllExact(r.info, inputs) then MaxLevel(r.info, inputs) else MaxKnown(r.info, inputs);
  }

  lemma HeuristicKeepsFacts(r: Roles, params: map<string, bool>, baked: set<string>, inner: set<string>, h: Heuristic,
                            keyed: string -> bool)
    requires AfterHeuristic(r, params, inner, h).Some?
    requires Untouched(r, params, baked, keyed) && ExactKeys(r, params, baked, keyed) && GivesConstexprs(r, params)
    ensures var r' := AfterHeuristic(r, params, inner, h).value;
      && Untouched(r', params, baked, keyed) && ExactKeys(r', params, baked, keyed) && GivesConstexprs(r', params)
      && r'.given == r.given + {h.name}
  {
    hide MaxLevel;
    hide MaxKnown;
    hide AllExact;
    hide MayRead;
  }

  lemma ExactInputs(r: Roles, params: map<string, bool>, baked: set<string>, keyed: string -> bool, inner: set<string>,
                    inputs: seq<string>)
    requires Regular(r, params) && Informed(r, params) && Untouched(r, params, baked, keyed)
    requires MayRead(r.info, inner, inputs)
    ensures AllExact(r.info, inputs) <==>
              forall n :: n in inputs ==> n in r.given || (n in params && (params[n] || n in baked || keyed(n)))
  {
  }

  /** What a stage of the analysis has found, of a chain of which `keyed` were keyed on so far. */
  ghost predicate Finding(r: Roles, params: map<string, bool>, baked: set<string>, keyed: string -> bool) {
    && Regular(r, params) && Informed(r, params)
    && Untouched(r, params, baked, keyed) && ExactKeys(r, params, baked, keyed) && GivesConstexprs(r, params)
  }

  lemma {:induction false} HeuristicsFind(r: Roles, params: map<string, bool>, baked: set<string>, inner: set<string>,
                                          values: seq<Heuristic>, keyed: string -> bool)
    requires Finding(r, params, baked, keyed) && AfterHeuristics(r, params, inner, values).Some?
    ensures Finding(AfterHeuristics(r, params, inner, values).value, params, baked, keyed)
    decreases |values|
  {
    if values != [] {
      var last := |values| - 1;
      HeuristicsFind(r, params, baked, inner, values[..last], keyed);
      var before := AfterHeuristics(r, params, inner, values[..last]).value;
      OneFinds(before, params, baked, inner, values[last], keyed);
      hide Finding;
      hide AfterHeuristic;
    }
  }

  lemma OneFinds(r: Roles, params: map<string, bool>, baked: set<string>, inner: set<string>, h: Heuristic,
                 keyed: string -> bool)
    requires Finding(r, params, baked, keyed) && AfterHeuristic(r, params, inner, h).Some?
    ensures Finding(AfterHeuristic(r, params, inner, h).value, params, baked, keyed)
  {
    HeuristicKeepsFacts(r, params, baked, inner, h, keyed);
    HeuristicKeeps(r, params, inner, h);
    InformedAfter(r, params, inner, h);
    hide AfterHeuristic;
    hide Grows;
  }

  lemma InformedAfter(r: Roles, params: map<string, bool>, inner: set<string>, h: Heuristic)
    requires Informed(r, params) && AfterHeuristic(r, params, inner, h).Some?
    ensures Informed(AfterHeuristic(r, params, inner, h).value, params)
  {
    hide MaxLevel;
    hide MaxKnown;
    hide AllExact;
  }

  lemma LayerFinds(r: Roles, params: map<string, bool>, baked: set<string>, inner: set<string>, layer: Layer,
                   keyed: string -> bool)
    requires Finding(r, params, baked, keyed) && AfterLayer(r, params, inner, layer).Some?
    requires Informed(AfterLayer(r, params, inner, layer).value, params)
    ensures Finding(AfterLayer(r, params, inner, layer).value, params, baked,
                    if layer.Autotuner? then KeyedToo(keyed, layer.keys) else keyed)
  {
    LayerKeeps(r, params, inner, layer);
    match layer
    case Autotuner(keys, _) =>
      var _ := AutotunerFinds(r, params, baked, inner, layer, keyed);
    case Heuristics(values) =>
      HeuristicsFind(r, params, baked, inner, values, keyed);
  }

  /** After every layer, outermost first, the analysis has found that. */
  lemma {:induction false} LayersFind(params: map<string, bool>, baked: set<string>, layers: seq<Layer>, k: nat)
    requires k <= |layers| && AfterLayers(params, baked, layers, k).Some?
    ensures Finding(AfterLayers(params, baked, layers, k).value, params, baked, Keyed(layers, k))
    decreases k
  {
    if k == 0 {
      StartFinds(params, baked, layers);
    } else {
      LayersFind(params, baked, layers, k - 1);
      LayersMayExactly(params, baked, layers, k);
      var r, r' := AfterLayers(params, baked, layers, k - 1).value, AfterLayers(params, baked, layers, k).value;
      var inner, layer := AssignedFrom(layers, k), layers[k - 1];
      assert AfterLayer(r, params, inner, layer) == Some(r');
      hide AfterLayers;
      hide AfterLayer;
      hide LayerMay;
      hide Finding;
      LayerFinds(r, params, baked, inner, layer, Keyed(layers, k - 1));
      var keyed := if layer.Autotuner? then KeyedToo(Keyed(layers, k - 1), layer.keys) else Keyed(layers, k - 1);
      KeyedStep(layers, k);
      SameKeyed(r', params, baked, keyed, Keyed(layers, k));
    }
  }

  lemma StartFinds(params: map<string, bool>, baked: set<string>, layers: seq<Layer>)
    ensures Finding(Start(params, baked), params, baked, Keyed(layers, 0))
  {
  }

  lemma KeyedStep(layers: seq<Layer>, k: nat)
    requires 0 < k <= |layers|
    ensures var layer := layers[k - 1];
      var keyed := if layer.Autotuner? then KeyedToo(Keyed(layers, k - 1), layer.keys) else Keyed(layers, k - 1);
      forall n :: keyed(n) <==> Keyed(layers, k)(n)
  {
  }

  lemma SameKeyed(r: Roles, params: map<string, bool>, baked: set<string>, keyed: string -> bool,
                  keyed': string -> bool)
    requires Finding(r, params, baked, keyed) && forall n :: keyed(n) <==> keyed'(n)
    ensures Finding(r, params, baked, keyed')
  {
    hide Regular;
    hide Informed;
    hide GivesConstexprs;
  }

  /** The exact keys of a plan are the runtime parameters some autotuner keys on. */
  lemma ExactKeysExactly(params: map<string, bool>, baked: set<string>, layers: seq<Layer>, x: string)
    requires Analysis(params, baked, layers).Some?
    ensures x in Analysis(params, baked, layers).value.exactKeys <==>
              && x in params && !params[x] && x !in baked
              && exists k :: 0 <= k < |layers| && layers[k].Autotuner? && x in layers[k].keys
  {
    LayersFind(params, baked, layers, |layers|);
    assert Keyed(layers, |layers|)(x) == KeyedBefore(layers, |layers|, x);
  }

  /** What an autotuner of the chain tunes is in the plan at the highest of its keys' levels. */
  lemma AutotunerRole(params: map<string, bool>, baked: set<string>, layers: seq<Layer>, k: nat) returns (level: nat)
    requires Analysis(params, baked, layers).Some? && k < |layers| && layers[k].Autotuner?
    ensures AfterLayers(params, baked, layers, k).Some?
    ensures Highest(AfterLayers(params, baked, layers, k).value, params, layers[k].keys, level)
    ensures forall x :: Gives(layers[k], x) ==> Dependent(x, level) in Analysis(params, baked, layers).value.dependent
  {
    StageRoles(params, baked, layers, k);
    LayersFind(params, baked, layers, k);
    var r, inner, plan := AfterLayers(params, baked, layers, k).value, AssignedFrom(layers, k + 1),
        Analysis(params, baked, layers).value;
    hide AfterLayers;
    hide Analysis;
    level := TunesAt(r, params, baked, inner, layers[k], Keyed(layers, k));
    hide AfterLayer;
    hide Gives;
    hide Highest;
    hide Finding;
  }

  lemma TunesAt(r: Roles, params: map<string, bool>, baked: set<string>, inner: set<string>, layer: Layer,
                keyed: string -> bool) returns (level: nat)
    requires layer.Autotuner? && AfterLayer(r, params, inner, layer).Some? && Finding(r, params, baked, keyed)
    ensures Highest(r, params, layer.keys, level)
    ensures forall x :: Gives(layer, x) ==> Dependent(x, level) in AfterLayer(r, params, inner, layer).value.dependent
  {
    level := AutotunerFinds(r, params, baked, inner, layer, keyed);
  }

  /** What a layer finds is in the plan. */
  lemma StageRoles(params: map<string, bool>, baked: set<string>, layers: seq<Layer>, k: nat)
    requires Analysis(params, baked, layers).Some? && k < |layers|
    ensures AfterLayers(params, baked, layers, k).Some?
    ensures var layer := AfterLayer(AfterLayers(params, baked, layers, k).value, params, AssignedFrom(layers, k + 1),
                                    layers[k]);
      && layer.Some? && layer.value.dependent <= Analysis(params, baked, layers).value.dependent
      && layer.value.computed <= Analysis(params, baked, layers).value.computed
  {
    hide AfterLayers;
    hide AfterLayer;
    hide AssignedFrom;
    hide TopLevel;
    hide Grows;
    var n := |layers|;
    assert AfterLayers(params, baked, layers, n).Some?;
    LayersGrow(params, baked, layers, k, n);
    LayersGrow(params, baked, layers, k + 1, n);
    OneLayer(params, baked, layers, k);
    GrowsRoles(AfterLayers(params, baked, layers, k + 1).value, AfterLayers(params, baked, layers, n).value);
  }

  lemma OneLayer(params: map<string, bool>, baked: set<string>, layers: seq<Layer>, k: nat)
    requires k < |layers| && AfterLayers(params, baked, layers, k).Some?
    ensures AfterLayers(params, baked, layers, k + 1)
         == AfterLayer(AfterLayers(params, baked, layers, k).value, params, AssignedFrom(layers, k + 1), layers[k])
  {
    hide AfterLayer;
  }

  lemma GrowsRoles(r: Roles, r': Roles)
    requires Grows(r, r')
    ensures r.dependent <= r'.dependent && r.computed <= r'.computed
  {
  }

  /** A heuristic of the chain is in the plan as what it reads makes it: a dependent of the highest
      level it reads where all that is exact, else a computed key of the highest count it needs. */
  lemma HeuristicRole(params: map<string, bool>, baked: set<string>, layers: seq<Layer>, k: nat, i: nat)
    returns (r: Roles, level: nat)
    requires Analysis(params, baked, layers).Some? && k < |layers| && layers[k].Heuristics? && i < |layers[k].values|
    ensures AfterLayers(params, baked, layers, k).Some? && Finding(r, params, baked, Keyed(layers, k))
    ensures AfterHeuristics(AfterLayers(params, baked, layers, k).value, params, AssignedFrom(layers, k + 1),
                            layers[k].values[..i]) == Some(r)
    ensures var h, plan := layers[k].values[i], Analysis(params, baked, layers).value;
      && h.inputs.Some?
      && if forall n :: n in h.inputs.value ==>
        n in r.given || (n in params && (params[n] || n in baked || KeyedBefore(layers, k, n)))
         then Top(level, h.inputs.value, LevelIn(r)) && Dependent(h.name, level) in plan.dependent
         else Top(level, h.inputs.value, KnownIn(r)) && Computed(h.name, level, h.inputs.value) in plan.computed
  {
    StageRoles(params, baked, layers, k);
    LayersFind(params, baked, layers, k);
    var before, inner, values := AfterLayers(params, baked, layers, k).value, AssignedFrom(layers, k + 1),
        layers[k].values;
    hide AfterLayers;
    hide Analysis;
    hide Finding;
    PrefixFinds(before, params, inner, values, i);
    r := AfterHeuristics(before, params, inner, values[..i]).value;
    HeuristicsFind(before, params, baked, inner, values[..i], Keyed(layers, k));
    level := FindsOne(r, params, baked, inner, values[i], Keyed(layers, k));
    assert forall n :: Keyed(layers, k)(n) == KeyedBefore(layers, k, n);
    hide AfterHeuristics;
    hide AfterHeuristic;
    hide Top;
    hide KeyedBefore;
  }

  lemma FindsOne(r: Roles, params: map<string, bool>, baked: set<string>, inner: set<string>, h: Heuristic,
                 keyed: string -> bool) returns (level: nat)
    requires AfterHeuristic(r, params, inner, h).Some? && Finding(r, params, baked, keyed)
    ensures var r' := AfterHeuristic(r, params, inner, h).value;
      && h.inputs.Some?
      && if forall n :: n in h.inputs.value ==>
        n in r.given || (n in params && (params[n] || n in baked || keyed(n))) then
           Top(level, h.inputs.value, LevelIn(r)) && Dependent(h.name, level) in r'.dependent
         else
           Top(level, h.inputs.value, KnownIn(r)) && Computed(h.name, level, h.inputs.value) in r'.computed
  {
    level := HeuristicFinds(r, params, baked, inner, h, keyed);
    hide AfterHeuristic;
    hide Top;
    hide Finding;
  }

  /** A heuristic's turn comes after those before it, and what is found stays. */
  lemma {:induction false} PrefixFinds(r: Roles, params: map<string, bool>, inner: set<string>, values: seq<Heuristic>,
                                       i: nat)
    requires i < |values| && AfterHeuristics(r, params, inner, values).Some?
    ensures AfterHeuristics(r, params, inner, values[..i]).Some?
    ensures AfterHeuristic(AfterHeuristics(r, params, inner, values[..i]).value, params, inner, values[i]).Some?
    ensures var one := AfterHeuristic(AfterHeuristics(r, params, inner, values[..i]).value, params, inner,
                                      values[i]).value;
            var all := AfterHeuristics(r, params, inner, values).value;
            one.dependent <= all.dependent && one.computed <= all.computed
    decreases |values|
  {
    var last := |values| - 1;
    if i < last {
      PrefixFinds(r, params, inner, values[..last], i);
      assert values[..last][..i] == values[..i];
    }
    hide MaxLevel;
    hide MaxKnown;
    hide AllExact;
    hide MayRead;
  }

  lemma {:induction false} TopLevelIs(computed: seq<Computed>)
    ensures forall c :: c in computed ==> c.level <= TopLevel(computed)
    ensures TopLevel(computed) == 0 || exists c :: c in computed && c.level == TopLevel(computed)
    decreases |computed|
  {
    if computed != [] {
      var last := |computed| - 1;
      TopLevelIs(computed[..last]);
      assert computed == computed[..last] + [computed[last]];
      if TopLevel(computed[..last]) > computed[last].level {
        var c :| c in computed[..last] && c.level == TopLevel(computed[..last]);
        assert c in computed;
      }
    }
  }

  /** There are as many lookups as the highest computed key needs, and one without any. */
  lemma LevelsExactly(params: map<string, bool>, baked: set<string>, layers: seq<Layer>)
    requires Analysis(params, baked, layers).Some?
    ensures var plan := Analysis(params, baked, layers).value;
      && plan.levels >= 1 && (forall c :: c in plan.computed ==> c.level < plan.levels)
      && (plan.levels == 1 || exists c :: c in plan.computed && c.level == plan.levels - 1)
  {
    TopLevelIs(Analysis(params, baked, layers).value.computed);
  }
}
